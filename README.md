# MAGIC link-management core, modelled in Dafny

This project models the sequential core of an ARINC 839 MAGIC (Media
Independent Aircraft Network Interface) stack built on freeDiameter. It also
models the offline provisioning tool that issues the stack's certificates and
peer configurations. Each source file of the core becomes one Dafny module. The
module keeps the file's data: fixed-capacity slot tables, counters and
integer return codes. The properties proved are the ones the code and its
comments promise.

- **Provisioning tool** (`CertGenerator`, `Certificates`, `CertArtifacts`,
  `ClientIdentity`, `XmlTree`, `Text`). The ordered distinguished-name
  builder and the SubjectAltName builder, including the hand-rolled DER
  UTF8String OtherName. Root and leaf certificates follow the shapes of
  RFC 5280 (BasicConstraints, KeyUsage, ExtKeyUsage, key identifiers). Then
  come the access-list merge and the per-client business profile, the
  freeDiameter peer file and the business-parameter file, with the `run`
  pipeline over an explicit environment and effect log. Keys and signatures
  are opaque values. Serial numbers and key ids come from a counter. The
  clock, the file system and the template texts are inputs.
- **Server state tables** (`MagicSession`, `MagicLmi`, `MagicCdr`,
  `CdrJson`, `MagicDataplane`, `MagicCicPush`, `MagicCic`, `MccrQueue`,
  `DlmCommon`). These cover:
  - the session table and the per-client quotas;
  - DLM registration and bearer allocation, with the IEEE 802.21
    Link_Resource decision table;
  - the charging-record life cycle, with 64-bit counter wrap, rollover and
    the JSON round trip;
  - routing-table bookkeeping in the data plane;
  - MNTR storm suppression and MSCR recipient filtering;
  - the MSXR rate limiter, the Altitude and Airport AVP parsers, the altitude
    gate, the MCCR wait queue, intent routing and the status-level downgrade.
  Stateful tables are classes over arrays or sequences. Their methods are
  proved against specification functions on the old state.
- **Decision and validation functions** (`MagicPolicy`, `MagicConfig`,
  `MagicTftValidator`, `MagicTftValidator3gpp`, `MihProtocol`, `MagicAdif`,
  `TrafficMonitor`, `BackupPolicyEngine`). These cover:
  - the wildcard matcher, traffic classification, switching hysteresis and
    path selection;
  - the configuration enum parsers and whitelist lookups;
  - the two TFT whitelist validators of section 1.2.2.2 of ARINC 839: the
    ipfw-style one and the 3GPP TS 23.060 field-format one;
  - the MIH enum and QoS helpers;
  - the ADIF (ARINC 834-1) phase mapping, subscribe and publish texts;
  - conntrack mark hashing and the traffic session table;
  - the older table-driven policy engine.
- **Client, DLM and simulators** (`ClientSessions`, `ClientCommands`,
  `DlmPrototype`, `MihfSimulator`, `AdifSimulator`). These cover:
  - the client session table and DLM status cache;
  - the client state machine driven by answer codes, and the command
    argument checks;
  - the tcpdump hex-dump parser to IPv4/UDP payloads (RFC 791, RFC 768);
  - the DLM Link_Resource handling and frame building;
  - the MIHF message ring buffer;
  - the ADIF simulator's client table and its Weight-on-Wheels encoding.

Shared helpers: `CString` holds the C library functions the code relies on
(`isspace`, `strtol`, `atoi`, `strcasecmp`, bounded `strncpy`, integer
casts). `Bytes` holds octets. `Wrappers` holds `Option` and `Result`.

Where the code and its comments disagree, the model follows the code. The
disagreements that are defects are listed under "## Findings": each has a
lemma exhibiting the code as written and a corrected definition with the
intended property proved about it.

## Model

| member | source | states |
|---|---|---|
| CertGenerator.OutputDirOf | tools/cert_generator/cert_generator.py:51-77 | the configuration loads only with a document whose OutputDirectory has non-empty text, and that text is the output directory |
| CertGenerator.IntChild | tools/cert_generator/cert_generator.py:158-159 | succeeds exactly when the child has text that parses as an integer, giving that integer |
| CertGenerator.NewKey | tools/cert_generator/cert_generator.py:79-85 | a key is generated exactly when the size is one the key generator accepts, with that size |
| CertGenerator.RootStageOutcome | tools/cert_generator/cert_generator.py:154-185 | a root that cannot be issued stops the run with its fault; otherwise the key and the certificate are saved and the run goes on |
| CertGenerator.FaultStops | tools/cert_generator/cert_generator.py:195-265 | after a fault the leaf loop does nothing more |
| CertGenerator.LeafStepOutcome | tools/cert_generator/cert_generator.py:195-225 | a leaf that cannot be issued stops the run with its fault; otherwise its key and certificate are saved under its prefix |
| CertGenerator.AclScanIsUnlisted | tools/cert_generator/cert_generator.py:279-285 | the loop over the clients collects exactly the identities the merge adds |
| CertGenerator.AclScanFails | tools/cert_generator/cert_generator.py:282-283 | the loop raises exactly what reading the client identities raises |
| CertGenerator.AclStageMerges | tools/cert_generator/cert_generator.py:267-296 | with an access-list file the stage appends exactly the merge's new text, and a file without new identities is left alone |
| CertGenerator.AclStageSecondRunAppendsNothing | tools/cert_generator/cert_generator.py:267-296 | running the stage again on the file it produced appends nothing |
| CertGenerator.Records | tools/cert_generator/cert_generator.py:313-418 | one profile record, or what it raised, per client, in order |
| CertGenerator.TemplateCopies | tools/cert_generator/cert_generator.py:433-442 | only copies of the policy templates are made |
| CertGenerator.ProfileScanEach | tools/cert_generator/cert_generator.py:313-418 | the profile loop completes exactly when every client's record can be built |
| CertGenerator.ProfileDocumentLists | tools/cert_generator/cert_generator.py:298-448 | when every record builds, the profile document is written first with one ClientProfile per client, in order |
| CertGenerator.ProfileStageWrites | tools/cert_generator/cert_generator.py:422-442 | the stage writes Client_Profile.xml and then copies the templates that exist |
| CertGenerator.ProfileFaultSwallowed | tools/cert_generator/cert_generator.py:445-448 | a client whose record raises leaves the profile stage without any effect, and the run goes on |
| CertGenerator.FdFaultStops | tools/cert_generator/cert_generator.py:450-533 | after a fault the client peer-file loop writes nothing more |
| CertGenerator.MagicFaultStops | tools/cert_generator/cert_generator.py:596-775 | after a fault the business-parameter loop writes nothing more |
| CertGenerator.ExitCode | tools/cert_generator/cert_generator.py:806-812 | the process exits 0 exactly when the run succeeded |
| CertGenerator.StagesAfterFault | tools/cert_generator/cert_generator.py:785-803 | once a stage raises, every later stage changes nothing |
| CertGenerator.IssuedRootIsTrustAnchor | tools/cert_generator/cert_generator.py:154-185 | the root is a trust anchor for its own key, with the configured key size, validity and subject |
| CertGenerator.IssuedLeafChains | tools/cert_generator/cert_generator.py:187-265 | a server or client certificate chains to the root for its role's purpose, with its configured key size, validity, subject and SAN |
| CertGenerator.LeafStepsSound | tools/cert_generator/cert_generator.py:195-265 | the leaf loops keep every key file followed by mode 600 and every certificate file trusted by the root |
| CertGenerator.AclStageSound | tools/cert_generator/cert_generator.py:267-296 | the access-list stage writes no key and no certificate |
| CertGenerator.ProfileStageSound | tools/cert_generator/cert_generator.py:298-448 | the profile stage writes no key and no certificate |
| CertGenerator.RunSound | tools/cert_generator/cert_generator.py:777-803 | in the whole run, every private key file is immediately set to mode 600 and every certificate written chains to the root |
| CertGenerator.RootFailureStopsRun | tools/cert_generator/cert_generator.py:785-803 | a root that cannot be issued fails the run after the directories are made and writes nothing else |
| CertGenerator.LeafStepsStop | tools/cert_generator/cert_generator.py:195-265 | an entry whose subject name or SAN cannot be built stops the leaf loop, whatever came before it |
| CertGenerator.IssueLeafNeedsSan | tools/cert_generator/cert_generator.py:220-221 | an entry whose subject name or SubjectAltNames cannot be built is not issued |
| CertGenerator.BadSanIpFailsRun | tools/cert_generator/cert_generator.py:136-137 | a server or client with a SAN IP that does not parse fails the whole run |
| CertGenerator.NonAsciiDnsFailsRun | tools/cert_generator/cert_generator.py:133-134 | a server or client with a SAN DNS name that is missing or not ASCII fails the whole run with exit code 1 |
| CertGenerator.BadCountryFailsRun | tools/cert_generator/cert_generator.py:120-123 | a CA, server or client whose Country is not two UTF-8 bytes fails the whole run with exit code 1 |
| CertGenerator.UnbuildableFailsRun | tools/cert_generator/cert_generator.py:777-812 | a server or client whose subject name or SAN cannot be built fails the whole run with exit code 1 |
| CertGenerator.ServerFileWrittenLast | tools/cert_generator/cert_generator.py:785-798 | a successful run ends with the server peer file |
| CertGenerator.Generator.constructor | tools/cert_generator/cert_generator.py:33-49 | the generator starts with no CA, an empty log and the given configuration and environment |
| CertGenerator.Generator.LoadConfig | tools/cert_generator/cert_generator.py:51-77 | loads exactly when the output directory is set; then it makes the output and the three sub-directories; otherwise nothing is logged |
| CertGenerator.Generator.SavePrivateKey | tools/cert_generator/cert_generator.py:87-97 | the key file is written, then its mode set to 600 |
| CertGenerator.Generator.SaveCertificate | tools/cert_generator/cert_generator.py:99-105 | the certificate file is written, then its mode set to 644 |
| CertGenerator.Generator.GenerateCaCertificate | tools/cert_generator/cert_generator.py:154-185 | the log, key counter and fault are those of the root stage, and the CA is the one issued |
| CertGenerator.Generator.IssueAndSave | tools/cert_generator/cert_generator.py:195-225 | one iteration of the leaf loop does what the leaf step specification says |
| CertGenerator.Generator.GenerateLeafCertificates | tools/cert_generator/cert_generator.py:187-265 | the loop over the server or client entries does what the leaf-loop specification says |
| CertGenerator.Generator.UpdateAclWhitelist | tools/cert_generator/cert_generator.py:267-296 | the log and fault are those of the access-list stage |
| CertGenerator.Generator.UpdateClientProfile | tools/cert_generator/cert_generator.py:298-448 | the log is that of the profile stage, and it never raises |
| CertGenerator.Generator.GenerateClientFdConfigs | tools/cert_generator/cert_generator.py:450-533 | the log and fault are those of the client peer-file stage |
| CertGenerator.Generator.GenerateClientMagicConfigs | tools/cert_generator/cert_generator.py:596-775 | the log and fault are those of the business-parameter stage |
| CertGenerator.Generator.GenerateServerFdConfig | tools/cert_generator/cert_generator.py:536-594 | the log and fault are those of the server peer-file stage |
| CertGenerator.Generator.Run | tools/cert_generator/cert_generator.py:777-803 | the result and the log are those of the whole-run specification |
| Certificates.DnOrderRanks | tools/cert_generator/cert_generator.py:111-118 | the subject attributes are taken in the fixed order Country, State, Locality, Organization, OrganizationalUnit, CommonName |
| Certificates.BuildNameFromOk | tools/cert_generator/cert_generator.py:120-123 | building the name from an attribute on succeeds exactly when every present tag has text and a present Country text is two UTF-8 bytes, as `x509.NameAttribute` demands |
| Certificates.BuildNameFromShape | tools/cert_generator/cert_generator.py:120-125 | a built name lists the present attributes from that one on, in order, with their texts |
| Certificates.SubjectNameShape | tools/cert_generator/cert_generator.py:107-125 | the subject name is built exactly when every present tag has text and a present Country is two UTF-8 bytes; it is in attribute order, at most six long, each entry carries its tag's text, and it holds exactly the attributes present |
| Certificates.CountryCodeRefused | tools/cert_generator/cert_generator.py:120-123 | a Country whose text is not two UTF-8 bytes makes the subject name fail with that text |
| Certificates.ThreeLetterCountry | tools/cert_generator/cert_generator.py:120-123 | "USA" is refused as a country code and "US" accepted |
| Certificates.OctetOfNatToString | tools/cert_generator/cert_generator.py:137 | a decimal octet reads back as itself |
| Certificates.ParseIpv4 | tools/cert_generator/cert_generator.py:137 | a parsed address has exactly four octets |
| Certificates.Ipv4RoundTrip | tools/cert_generator/cert_generator.py:137 | parsing a dotted-quad address gives the four octets back |
| Certificates.Utf8 | tools/cert_generator/cert_generator.py:146 | the UTF-8 encoding is never shorter than the text |
| Certificates.Utf8LengthIsCharCountIffAscii | tools/cert_generator/cert_generator.py:146 | the UTF-8 byte count equals the character count exactly for ASCII text |
| Certificates.OtherNameValue | tools/cert_generator/cert_generator.py:143-146 | the value is encoded exactly when its character count fits in one byte, as tag 0x0C, that count, then the UTF-8 bytes |
| Certificates.DecodeShortUtf8String | tools/cert_generator/cert_generator.py:143-146 | a decoded string is under 128 bytes and the input is exactly its DER UTF8String |
| Certificates.OtherNameDecodes | tools/cert_generator/cert_generator.py:143-146 | an ASCII value under 128 characters round-trips as a DER UTF8String |
| Certificates.OtherNameNonAsciiDoesNotDecode | tools/cert_generator/cert_generator.py:146 | a non-ASCII value gets the character count as length, which is not its byte count, so the DER does not decode |
| Certificates.OtherNameLongDoesNotDecode | tools/cert_generator/cert_generator.py:145-146 | a value of 128 to 255 characters gets a length byte with the top bit set, which is not a DER short length |
| Certificates.OtherNameEntry | tools/cert_generator/cert_generator.py:139-147 | the OtherName is built exactly when OID and Value have text, the value is under 256 characters and the OID is a valid dotted identifier; it carries that OID |
| Certificates.ArcStrings | tools/cert_generator/cert_generator.py:147 | the arcs are written in decimal, one string each |
| Certificates.OidOfArcs | tools/cert_generator/cert_generator.py:147 | a dotted list of at least two arcs with a first arc of 0-2 (and a second arc under 40 below 2) is a valid identifier; text without a dot is not |
| Certificates.DnsEntries | tools/cert_generator/cert_generator.py:133-134 | one DNS name per DNS element, in order, with its text; fails exactly when an element has no text or non-ASCII text, which `x509.DNSName` refuses |
| Certificates.IpEntries | tools/cert_generator/cert_generator.py:136-137 | the IP entries are built exactly when every IP element parses; one address per element, in order |
| Certificates.OtherEntries | tools/cert_generator/cert_generator.py:139-148 | one OtherName entry exactly when an OtherName element is present, none otherwise |
| Certificates.SanBadIpFails | tools/cert_generator/cert_generator.py:136-137 | an IP element that does not parse makes the whole SAN fail |
| Certificates.SanNonAsciiDnsFails | tools/cert_generator/cert_generator.py:133-134 | a DNS element with no text or non-ASCII text makes the whole SAN fail |
| Certificates.SanOrder | tools/cert_generator/cert_generator.py:129-152 | the SAN lists the DNS names, then the IP addresses, then the OtherName, each from its elements in order |
| Certificates.SanParts | tools/cert_generator/cert_generator.py:129-152 | a built SAN is the concatenation of the DNS, IP and OtherName entries |
| Certificates.SanNoneIffEmpty | tools/cert_generator/cert_generator.py:150-152 | no SAN extension exactly when there are no DNS, IP or OtherName entries |
| Certificates.NoSanWithoutElement | tools/cert_generator/cert_generator.py:130-131 | without a SubjectAltNames element there is no SAN extension |
| Certificates.RootIsTrustAnchor | tools/cert_generator/cert_generator.py:154-185 | the CA certificate is self-issued and self-signed, a CA with path length 1 and key-cert-sign/CRL-sign usage, valid from now for the configured days |
| Certificates.LeafChainsToRoot | tools/cert_generator/cert_generator.py:187-265 | a server or client certificate chains to the root for its own purpose at every time inside its validity, and not for the other purpose |
| Certificates.LeafSanPresence | tools/cert_generator/cert_generator.py:220-221 | the SAN extension is present exactly when the builder returned one |
| CertArtifacts.ChildText | tools/cert_generator/cert_generator.py:283 | a missing child raises; otherwise its text, possibly None |
| CertArtifacts.ChildString | tools/cert_generator/cert_generator.py:283 | succeeds exactly when the child exists and has text, and gives that text |
| CertArtifacts.ClientList | tools/cert_generator/cert_generator.py:280-282 | only Client elements, and none when the Clients element is missing or empty |
| CertArtifacts.Identities | tools/cert_generator/cert_generator.py:282-283 | one identity per client, in order, exactly when every client has a CommonName with text |
| CertArtifacts.Unlisted | tools/cert_generator/cert_generator.py:282-285 | the new entries are exactly the identities not already occurring anywhere in the access-list text, never more than the clients |
| CertArtifacts.AclMergeCovers | tools/cert_generator/cert_generator.py:267-296 | the merge only appends: the old text is a prefix, every client identity occurs afterwards, and appended text ends with a newline |
| CertArtifacts.AclMergeIdempotent | tools/cert_generator/cert_generator.py:267-296 | merging a second time with the same clients adds nothing |
| CertArtifacts.McfgText | tools/cert_generator/cert_generator.py:378-381 | the MagicConfig child's text when there is such a child, the default otherwise |
| CertArtifacts.WhitelistEntries | tools/cert_generator/cert_generator.py:393-398 | one whitelist entry per TFT element, with its direction (GROUND by default) and stripped text, exactly when every element has text |
| CertArtifacts.ProfileIdentity | tools/cert_generator/cert_generator.py:314-332 | a profile is built exactly when the client has a CommonName and its TFTs have text; its client id is the CommonName and its user name the part before the first dot |
| CertArtifacts.ProfileSourceIp | tools/cert_generator/cert_generator.py:316-332 | the profile has a source IP exactly when the client's first SAN IP has non-empty text, and then it is that text |
| CertArtifacts.ProfileWhitelist | tools/cert_generator/cert_generator.py:387-406 | no MagicConfig gives an empty whitelist; configured TFTs are copied one for one; a MagicConfig without TFTs gives the two default entries with the literal placeholder |
| CertArtifacts.LevelCountAgrees | tools/cert_generator/cert_generator.py:347-351 | the profile's AllowedQoSCount (3) equals the number of Level elements |
| CertArtifacts.DlmCountAgrees | tools/cert_generator/cert_generator.py:355-359 | the profile's AllowedDLMCount (3) equals the number of DLM elements |
| CertArtifacts.PhaseCountAgrees | tools/cert_generator/cert_generator.py:411-414 | the profile's FlightPhaseCount (8) equals the number of Phase elements |
| CertArtifacts.FdServerPeer | tools/cert_generator/cert_generator.py:456-464 | without servers the client connects to the default peer; a Servers element with no Server raises |
| CertArtifacts.OptionalInt | tools/cert_generator/cert_generator.py:480-485 | a missing setting gives the default; a present non-empty one gives the integer it parses to |
| CertArtifacts.OptionalText | tools/cert_generator/cert_generator.py:487-493 | a missing setting gives the default; a present non-blank one gives its stripped text |
| CertArtifacts.NumberReadsBack | tools/cert_generator/cert_generator.py:514-515 | a numeric directive's value reads back as the same integer |
| CertArtifacts.ClientFdListenOn | tools/cert_generator/cert_generator.py:487-502 | the ListenOn line appears exactly when a non-blank ListenOn is configured, with its stripped text |
| CertArtifacts.ClientFdPortsAndPeer | tools/cert_generator/cert_generator.py:471-530 | the client connects to the server identity; without MagicConfig it listens on ports 0 and connects to the server address on 5870; a configured Port is the integer its text parses to |
| CertArtifacts.ClientFdUsesOwnCertificate | tools/cert_generator/cert_generator.py:468-519 | the client's file is named after its prefix and points at that prefix's certificate and key and at ca.crt |
| CertArtifacts.ServerNaming | tools/cert_generator/cert_generator.py:540-547 | without servers the identity is magic-server.example.com with prefix magic-server |
| CertArtifacts.ServerFdShape | tools/cert_generator/cert_generator.py:564-591 | the server listens on 0.0.0.0 on ports 3869 and 5870, connects to no peer, and loads three extensions, the application with the server_profile directory and the access-list extension with the access-list file |
| CertArtifacts.RealmIsAfterFirstDot | tools/cert_generator/cert_generator.py:605-611 | the realm is the server CommonName after its first dot, or example.com when it has no dot |
| CertArtifacts.SplitTfts | tools/cert_generator/cert_generator.py:714-726 | the TFTs split exactly when every element has text, and no TFT is lost |
| CertArtifacts.SplitTftsPartition | tools/cert_generator/cert_generator.py:719-726 | the split is a partition into the GROUND texts and the others, each in document order |
| CertArtifacts.ConfigValue | tools/cert_generator/cert_generator.py:630-633 | the MagicConfig child's text as the f-string renders it (None as "None") when present, the default otherwise |
| CertArtifacts.ShowAll | tools/cert_generator/cert_generator.py:753-754 | the NAPT texts as written, unstripped, None rendered "None" |
| CertArtifacts.Numbered | tools/cert_generator/cert_generator.py:733-743 | the settings are numbered from 1 in order |
| CertArtifacts.MagicConfDefaults | tools/cert_generator/cert_generator.py:613-761 | without MagicConfig the file has the default GROUND and AIR TFT and the default NAPT for the client IP, the given realm, and the CommonName before its first dot as user name |
| CertArtifacts.MagicConfCustomTfts | tools/cert_generator/cert_generator.py:714-743 | configured TFTs all have text, and a direction with configured TFTs gets exactly those, in document order, and no default |
| CertArtifacts.SettingLinesRules | tools/cert_generator/cert_generator.py:663-761 | the 21 fixed settings come first, then the GROUND TFTs from TFT_GROUND.1, the AIR TFTs from TFT_AIR.1 and the NAPTs from NAPT.1, in that order |
| ClientIdentity.LeafStepsAppend | tools/cert_generator/cert_generator.py:195-265 | the leaf loops only append to the log, and a loop that ends without a fault started without one |
| ClientIdentity.AclStageAppends | tools/cert_generator/cert_generator.py:287-293 | the access-list stage only appends to the log |
| ClientIdentity.ProfileStageAppends | tools/cert_generator/cert_generator.py:428-440 | the profile stage only appends to the log |
| ClientIdentity.LeafStepLogsCert | tools/cert_generator/cert_generator.py:202-225 | a leaf step succeeds exactly when the leaf can be issued, and then the certificate it logs is the one issued |
| ClientIdentity.LeafStepsIssue | tools/cert_generator/cert_generator.py:235-265 | when the client loop completes, every client's certificate was issued and logged |
| ClientIdentity.SubjectHasCommonName | tools/cert_generator/cert_generator.py:107-125 | a subject built from an entry with a CommonName carries that CommonName |
| ClientIdentity.IssuedLeafNamed | tools/cert_generator/cert_generator.py:235-265 | an issued client certificate's subject carries the entry's CommonName |
| ClientIdentity.RunClientCertificate | tools/cert_generator/cert_generator.py:777-803 | after a successful run each client's certificate file is in the log with the client's CommonName in its subject |
| ClientIdentity.RunClientPeerFile | tools/cert_generator/cert_generator.py:450-533 | after a successful run each client's peer file is in the log with the client's CommonName as its Identity |
| ClientIdentity.RunAcl | tools/cert_generator/cert_generator.py:267-296 | after a successful run every client identity occurs in the access-list file, which only grew |
| ClientIdentity.ClientIdentityAgrees | tools/cert_generator/cert_generator.py:777-803 | after a successful run, the certificate logged under the client's prefix has its CommonName in the subject and chains to the root for client authentication, the peer file logged under that prefix has that CommonName as Identity and points at that certificate, the profile record carries it as ClientID, and it occurs in the merged access list |
| MagicSession.InUseUpdate | app_magic/magic_session.c:120-176 | replacing one session slot changes the occupied count by exactly that slot's change |
| MagicSession.ContextsInUseUpdate | app_magic/magic_session.c:594-635 | replacing one client-context slot changes the occupied count by exactly that slot's change |
| MagicSession.Initial | app_magic/magic_session.c:31-47 | the zeroed table satisfies the table invariant: both counts equal the occupied slots and every context's index list is well formed |
| MagicSession.FindSession | app_magic/magic_session.c:80-99 | the first occupied slot with that session id; none only when no occupied slot has it |
| MagicSession.FindByClient | app_magic/magic_session.c:481-500 | the first occupied, non-closed session of that client; none only when there is no such session |
| MagicSession.FirstFreeSession | app_magic/magic_session.c:129-135 | the first unoccupied session slot, every earlier one occupied; none only when all are occupied |
| MagicSession.FindContext | app_magic/magic_session.c:637-654 | the first occupied client context with that id; none only when there is none |
| MagicSession.FirstFreeContext | app_magic/magic_session.c:594-635 | the first unoccupied client-context slot; none only when all are occupied |
| MagicSession.GetOrCreateContext | app_magic/magic_session.c:594-635 | leaves the sessions untouched, returns an occupied context slot when it returns one, and keeps every context's index list well formed |
| MagicSession.CanAllocate | app_magic/magic_session.c:691-745 | -1 with zero grants exactly when a quota is set and either direction's headroom is below its guarantee; otherwise each grant is the request or the headroom, never more than either |
| MagicSession.ApplyDelta | app_magic/magic_session.c:747-780 | a negative delta never raises the total and saturates at 0 instead of wrapping; a zero delta changes nothing; the total stays a uint32 |
| MagicSession.ReturnRestoresAllocation | app_magic/magic_session.c:747-780 | adding a grant and then returning it restores the allocation |
| MagicSession.RefundSaturates | app_magic/magic_session.c:747-780 | a refund larger than the allocation leaves 0 |
| MagicSession.GrantStaysWithinQuota | app_magic/magic_session.c:691-780 | allocating what can_allocate granted keeps each direction's allocation within its maximum (or where it already was) |
| MagicSession.FirstIndex | app_magic/magic_session.c:803-857 | the first position of a value in the live index list, or none when it is absent |
| MagicSession.AddSession | app_magic/magic_session.c:803-833 | adding a session index keeps the index list well formed and a refusal changes nothing |
| MagicSession.RemoveSession | app_magic/magic_session.c:835-857 | removing a session index keeps the index list well formed |
| MagicSession.RemoveSessionKeepsOrder | app_magic/magic_session.c:835-857 | removal succeeds exactly when the index is listed; the later indices shift left in order and the freed tail slot is -1; otherwise nothing changes |
| MagicSession.AddThenRemove | app_magic/magic_session.c:782-857 | within the per-client limit a new index is appended at the end, and removing it again restores the original list |
| MagicSession.AddSessionIdempotent | app_magic/magic_session.c:803-833 | a listed index is not added twice: re-adding returns 0 and changes nothing (or is refused at the limit) |
| MagicSession.AssignLinkSwitches | app_magic/magic_session.c:182-222 | assignment makes the session ACTIVE on the link; a first or different link refreshes the switch time and records the previous link, re-assigning the same link keeps both |
| MagicSession.ReleaseLink | app_magic/magic_session.c:228-262 | after release the session holds no link |
| MagicSession.ReleaseLinkIdempotent | app_magic/magic_session.c:228-262 | release is idempotent, a no-op on a session without a bearer or link, keeps the state and zeroes both granted bandwidths |
| MagicSession.SuspendResumeRoundTrip | app_magic/magic_session.c:516-566 | suspend of an ACTIVE session zeroes its bandwidth and makes it SUSPENDED; resume makes it ACTIVE again; a second suspend or resume is refused with nothing changed |
| MagicSession.SuspendResumeRefuse | app_magic/magic_session.c:516-566 | suspend is refused with nothing changed exactly when the session is not ACTIVE, resume exactly when it is not SUSPENDED |
| MagicSession.SetSubscription | app_magic/magic_session.c:433-444 | the subscribed level is stored and the subscription is active exactly when it is positive |
| MagicSession.FindTft | app_magic/magic_session.c:919-959 | the first rule that admits the flow; none only when no rule admits it |
| MagicSession.AddedTftIsFound | app_magic/magic_session.c:884-959 | a rule added to a session without rules is found for any flow it admits, and a rule with empty addresses and zero ports admits every flow |
| MagicSession.Attach | app_magic/magic_session.c:163-167 | listing a new session under its client leaves the sessions untouched and keeps every index list well formed |
| MagicSession.Create | app_magic/magic_session.c:120-176 | creation keeps every context's index list well formed |
| MagicSession.Unlist | app_magic/magic_session.c:268-325 | the client half of delete keeps every index list well formed and the number of occupied contexts |
| MagicSession.Delete | app_magic/magic_session.c:268-325 | deletion keeps every context's index list well formed |
| MagicSession.AttachValid | app_magic/magic_session.c:163-167 | the client count stays equal to the occupied contexts when a session is listed |
| MagicSession.CreateValid | app_magic/magic_session.c:120-176 | creation keeps both counts equal to the occupied slots |
| MagicSession.CreateOk | app_magic/magic_session.c:120-176 | with a free slot, create fills the first free one with a new INIT session, lists it under the client and increments the session count |
| MagicSession.CreateSlots | app_magic/magic_session.c:120-176 | create returns the first free slot and fills exactly that slot, count plus one; with no free slot it returns none and changes nothing |
| MagicSession.DeleteSlots | app_magic/magic_session.c:268-325 | deleting a known id returns 0, zeroes exactly its slot and decrements the count only if it was positive |
| MagicSession.CreateFinds | app_magic/magic_session.c:80-176 | a created session is found by its id and is in state INIT |
| MagicSession.CreateThenDelete | app_magic/magic_session.c:120-325 | deleting a session just created returns 0 and restores the session slots and count |
| MagicSession.DeleteValid | app_magic/magic_session.c:268-325 | deletion keeps both counts equal to the occupied slots |
| MagicSession.UpdateSlotValid | app_magic/magic_session.c:182-262 | updating an occupied session in place keeps the table invariant |
| MagicSession.UnlistRefunds | app_magic/magic_session.c:268-325 | deleting a session returns its granted bandwidth to its client context, saturating at 0 |
| MagicSession.DeleteRefunds | app_magic/magic_session.c:268-325 | delete returns 0 and lowers the client's allocated bandwidth in both directions by the session's grants, never below 0 |
| MagicSession.Swept | app_magic/magic_session.c:331-368 | the timeout sweep keeps every slot |
| MagicSession.InUseSwept | app_magic/magic_session.c:331-368 | the sweep frees exactly the timed-out sessions |
| MagicSession.CleanupTimeoutLeavesCount | app_magic/magic_session.c:343-356 | as written, a sweep that frees a session leaves session_count above the occupied slots, breaking the table invariant |
| MagicSession.CleanupTimeoutCountedValid | app_magic/magic_session.c:331-368 | with the decrement, the sweep keeps the table invariant and leaves no timed-out session |
| MagicSession.SessionManager.constructor | app_magic/magic_session.c:31-47 | the manager starts in the zeroed table |
| MagicSession.SessionManager.FindById | app_magic/magic_session.c:80-99 | the scan over the array returns the value model's first matching slot |
| MagicSession.SessionManager.FindClientContext | app_magic/magic_session.c:637-654 | the scan over the array returns the value model's matching context |
| MagicSession.SessionManager.ContextFor | app_magic/magic_session.c:594-635 | get-or-create in place leaves the state of the value model and does not touch the sessions |
| MagicSession.SessionManager.AddSessionIndex | app_magic/magic_session.c:803-833 | the in-place add leaves context j as the value model says and every other context unchanged |
| MagicSession.SessionManager.RemoveSessionIndex | app_magic/magic_session.c:835-857 | the in-place shift-left removal leaves context j as the value model says and every other context unchanged |
| MagicSession.SessionManager.AttachSlot | app_magic/magic_session.c:163-167 | the in-place listing leaves the state of the value model |
| MagicSession.SessionManager.UnlistSlot | app_magic/magic_session.c:268-325 | the in-place refund and index removal leave the contexts of the value model |
| MagicSession.SessionManager.FreeSlot | app_magic/magic_session.c:129-135 | the scan returns the value model's first free slot |
| MagicSession.SessionManager.CreateSession | app_magic/magic_session.c:120-176 | create in place leaves the value model's state and keeps the table invariant |
| MagicSession.SessionManager.DeleteSession | app_magic/magic_session.c:268-325 | delete in place leaves the value model's state and keeps the table invariant |
| MagicSession.SessionManager.AssignSessionLink | app_magic/magic_session.c:182-222 | only slot i changes, to the value model's link assignment |
| MagicSession.SessionManager.ReleaseSessionLink | app_magic/magic_session.c:228-262 | only slot i changes, to the value model's release |
| MagicSession.SessionManager.SuspendSession | app_magic/magic_session.c:516-540 | only slot i changes, as the value model's suspend says, with its return code |
| MagicSession.SessionManager.ResumeSession | app_magic/magic_session.c:550-566 | only slot i changes, as the value model's resume says, with its return code |
| MagicSession.SessionManager.AddSessionTft | app_magic/magic_session.c:884-905 | only slot i changes, as the value model's rule append says, with its return code |
| MagicSession.SessionManager.FindSessionTft | app_magic/magic_session.c:919-959 | the scan returns the value model's first admitting rule |
| MagicSession.SessionManager.CleanupTimeoutSweep | app_magic/magic_session.c:331-368 | the in-place sweep returns the freed count and leaves the value model's as-written state |
| MagicLmi.ActiveCount | app_magic/magic_lmi.c:1292-1344 | the number of active bearer slots never exceeds the number of slots |
| MagicLmi.ActiveCountUpdate | app_magic/magic_lmi.c:1292-1344 | replacing one bearer slot changes the active count by exactly that slot's change |
| MagicLmi.ActiveCountAll | app_magic/magic_lmi.c:1292-1315 | when every slot is active the count is MAX_BEARERS |
| MagicLmi.ActiveCountSome | app_magic/magic_lmi.c:1292-1315 | an inactive slot means the count is below MAX_BEARERS |
| MagicLmi.EmptyClientTidy | app_magic/magic_lmi.c:1292-1344 | a zeroed client satisfies the bearer-table invariant (count = active slots, slot i active only with id i+1) |
| MagicLmi.FirstInactive | app_magic/magic_lmi.c:1297-1315 | the first inactive bearer slot with all earlier ones active; none only when all are active |
| MagicLmi.FindBearer | app_magic/magic_lmi.c:1354-1370 | a slot is found exactly when the id is in 1..MAX_BEARERS and that slot is active, and it is slot id-1 |
| MagicLmi.AllocateTakesFirstFree | app_magic/magic_lmi.c:1292-1315 | allocation returns 0 and changes nothing exactly when all bearers are active; otherwise it activates the first inactive slot with id slot+1, which was not findable before and is afterwards, and the count grows by one |
| MagicLmi.AllocateKeepsTidy | app_magic/magic_lmi.c:1292-1315 | allocation keeps the bearer-table invariant |
| MagicLmi.ReleaseKeepsTidy | app_magic/magic_lmi.c:1325-1344 | release keeps the invariant, succeeds exactly when the id was findable, and afterwards the id is not findable |
| MagicLmi.AllocateThenRelease | app_magic/magic_lmi.c:1292-1344 | releasing the bearer just allocated gives back the table as it was |
| MagicLmi.SetQosKeepsTidy | app_magic/magic_lmi.c:1385-1470 | storing QoS on an active slot keeps the invariant |
| MagicLmi.NewBearerOutcome | app_magic/magic_lmi.c:1385-1470 | a valid REQUEST without a bearer id succeeds exactly when a slot is free, returning a findable new id carrying the requested QoS; otherwise INSUFFICIENT_RESOURCES with nothing changed |
| MagicLmi.ReleaseOutcome | app_magic/magic_lmi.c:1385-1470 | a RELEASE with an id succeeds exactly when the bearer exists, otherwise INVALID_BEARER with nothing changed; afterwards the id is not findable |
| MagicLmi.HandleResourceKeepsTidy | app_magic/magic_lmi.c:1385-1470 | every answer of the internal resource handler keeps the bearer-table invariant |
| MagicLmi.LinkResourceMirrorsHandler | app_magic/magic_lmi.c:1629-1701 | for REQUEST and RELEASE the link-resource call gives the internal handler's status, bearer and table, returning 0 exactly on SUCCESS |
| MagicLmi.UnknownActionDiffers | app_magic/magic_lmi.c:1629-1701 | for an unknown action the link-resource call returns 0 with a zeroed (SUCCESS) confirm, while the internal handler answers FAILURE |
| MagicLmi.FindByLink | app_magic/magic_lmi.c:362-383 | the first registered client of the link; none only when no registered client has it |
| MagicLmi.FirstUnregistered | app_magic/magic_lmi.c:491-497 | the first unregistered client slot; none only when all are registered |
| MagicLmi.MarkActive | app_magic/magic_lmi.c:521-525 | marking a configured DLM active keeps the configuration list's length |
| MagicLmi.RegisterOutcome | app_magic/magic_lmi.c:482-548 | registration fails with INSUFFICIENT_RESOURCES and changes nothing exactly when all slots are registered; otherwise SUCCESS with assigned id = slot+1, the slot registered, last-seen now, and the client findable by its link |
| MagicLmi.MihLinkResourceOutcome | app_magic/magic_lmi.c:1545-1617 | LINK_NOT_AVAILABLE with nothing changed when the configured link is missing or inactive or has no registered client; otherwise the registered client's handler result, returning 0 exactly on SUCCESS |
| MagicLmi.Synced | app_magic/magic_lmi.c:1826-1843 | the current rate is the available rate, falling back to the rx rate when that is 0; latency, RSSI, IP, netmask, state and quality are copied |
| MagicLmi.InvocationsAppend | app_magic/magic_lmi.c:2629-2662 | callbacks registered later fire later |
| MagicLmi.InvocationsMatch | app_magic/magic_lmi.c:2629-2662 | only registered callbacks of the event's type fire, each with the event's link |
| MagicLmi.RegisteredHandlerFires | app_magic/magic_lmi.c:2629-2702 | below 16 entries a new callback is accepted and fires last for its event type |
| MagicLmi.SweepOutcome | app_magic/magic_lmi.c:2745-2767 | a client silent more than 30 s is unregistered and its socket closed; others are left as they are; the sweep is idempotent |
| MagicLmi.SweepLogNamesExpired | app_magic/magic_lmi.c:2745-2767 | every callback the sweep fires is a LINK_DOWN for the link of a client that expired |
| MagicLmi.LmiContext.constructor | app_magic/magic_lmi.c:251-298 | as magic_lmi_init and the configuration step of start_server leave it, the context starts with all client slots empty, the given DLM configuration and no callbacks |
| MagicLmi.LmiContext.FindClientByLink | app_magic/magic_lmi.c:362-383 | the scan returns the value model's first registered client of the link |
| MagicLmi.LmiContext.AllocateBearer | app_magic/magic_lmi.c:1292-1315 | only client k changes, as the value model's allocation says, and the id is returned |
| MagicLmi.LmiContext.FindClientBearer | app_magic/magic_lmi.c:1354-1370 | the lookup returns the value model's slot |
| MagicLmi.LmiContext.ReleaseBearer | app_magic/magic_lmi.c:1325-1344 | only client k changes, as the value model's release says, with its return code |
| MagicLmi.LmiContext.StoreQos | app_magic/magic_lmi.c:1385-1470 | only bearer slot i of client k changes, to the given QoS |
| MagicLmi.LmiContext.HandleResourceRequest | app_magic/magic_lmi.c:1385-1470 | only client k changes, as the value model's handler says, with its response |
| MagicLmi.LmiContext.LinkResourceRequest | app_magic/magic_lmi.c:1629-1701 | only client k changes, as the value model's link-resource call says, with its code and confirm |
| MagicLmi.LmiContext.MihLinkResourceRequest | app_magic/magic_lmi.c:1545-1617 | the clients change as the value model's MIH request says, with its code and confirm |
| MagicLmi.LmiContext.RegisterRequest | app_magic/magic_lmi.c:482-548 | the clients and the configured DLMs change as the value model's registration says, and the callbacks are untouched |
| MagicLmi.LmiContext.SyncClientParams | app_magic/magic_lmi.c:1826-1843 | only client k changes: its parameters become the synced view of its current report |
| MagicLmi.LmiContext.RegisterEventCallback | app_magic/magic_lmi.c:2674-2702 | the callback table changes as the value model's registration says, with its return code |
| MagicLmi.LmiContext.TriggerCallbacks | app_magic/magic_lmi.c:2629-2662 | the calls made are the value model's invocations, in registration order |
| MagicLmi.LmiContext.SweepHeartbeats | app_magic/magic_lmi.c:2724-2778 | each client becomes its swept state and the calls made are the value model's sweep log |
| MagicCdr.StatusName | app_magic/magic_cdr.c:58-71 | "UNKNOWN" exactly for codes outside ACTIVE..ROLLOVER, and no name contains a double quote |
| MagicCdr.OverflowIsShortWrap | app_magic/magic_cdr.c:77-93 | an overflow is detected exactly when the counter went down by less than half the uint64 range, i.e. a wrap rather than a reset |
| MagicCdr.Actual | app_magic/magic_cdr.c:566-602 | the actual traffic is a uint64 |
| MagicCdr.ActualIsWrappedDifference | app_magic/magic_cdr.c:566-602 | the actual traffic is bytes minus base offset minus overflow count, modulo 2^64 |
| MagicCdr.WrapDelta | app_magic/magic_cdr.c:355-367 | the byte count stored after a detected wrap is a uint64 |
| MagicCdr.WrapDeltaOneShort | app_magic/magic_cdr.c:355-367 | the stored count is one less than the true wrapped difference |
| MagicCdr.UpdateOutcome | app_magic/magic_cdr.c:530-564 | the update returns 1 exactly when either direction wrapped, each wrapped direction's overflow counter grows by one (uint32), and the new counters and packet counts are stored |
| MagicCdr.UpdateRefusesUnused | app_magic/magic_cdr.c:530-564 | a record not in use is refused with -1 and left alone |
| MagicCdr.FirstFree | app_magic/magic_cdr.c:240-252 | the first record slot not in use; none only when all are in use |
| MagicCdr.FindBySession | app_magic/magic_cdr.c:469-486 | the first in-use ACTIVE record of the session; none only when there is none |
| MagicCdr.CountInUse | app_magic/magic_cdr.c:141-289 | the record count is at most the number of slots |
| MagicCdr.CountInUseUpdate | app_magic/magic_cdr.c:231-316 | replacing one record changes the in-use count by exactly that record's change |
| MagicCdr.CountBelowWithFree | app_magic/magic_cdr.c:231-289 | a free slot means fewer records than slots |
| MagicCdr.AllFitUpdate | app_magic/magic_cdr.c:231-463 | storing a record whose counters fit their C widths keeps every record fitting |
| MagicCdr.OpenedFits | app_magic/magic_cdr.c:231-289 | a freshly opened record's fields fit their C widths |
| MagicCdr.CreateOutcome | app_magic/magic_cdr.c:231-289 | create fails exactly when the manager is uninitialised, the session is missing or no slot is free; otherwise the first free slot gets an ACTIVE record with the next id, the id counter and the created total grow by one and the count stays the in-use count |
| MagicCdr.ArchiveOutcome | app_magic/magic_cdr.c:989-1028 | archiving an ACTIVE record is refused with nothing changed; otherwise the archived copy is saved, the slot is zeroed and the archived total grows by one |
| MagicCdr.CloseOutcome | app_magic/magic_cdr.c:291-316 | closing a record not in use is refused; otherwise the slot is zeroed, the archived total grows by one and the count stays the in-use count |
| MagicCdr.FindAfterUpdate | app_magic/magic_cdr.c:469-486 | updating a session's open record in place keeps it the one found |
| MagicCdr.ClosingFits | app_magic/magic_cdr.c:318-463 | the closing record's fields still fit their C widths |
| MagicCdr.SuccessorFits | app_magic/magic_cdr.c:318-463 | the successor record's fields fit their C widths |
| MagicCdr.RolloverSucceeds | app_magic/magic_cdr.c:318-463 | with an open record and a free slot the rollover succeeds, and the ledger keeps its count invariant |
| MagicCdr.RolloverSuccessor | app_magic/magic_cdr.c:318-463 | the successor is an ACTIVE record of the same session with the next id, carrying the current counters as its base offsets |
| MagicCdr.RolloverWithoutRoom | app_magic/magic_cdr.c:318-463 | without a free slot the rollover fails with error -2, and the old record is left ACTIVE with its closing traffic |
| MagicCdr.RolloverWithoutRecord | app_magic/magic_cdr.c:318-463 | without an open record for the session the rollover fails with error -1 and changes nothing |
| MagicCdr.CdrManager.constructor | app_magic/magic_cdr.c:141-196 | all slots empty, counters zero, ids seeded from the clock modulo 2^32 |
| MagicCdr.CdrManager.FreeSlot | app_magic/magic_cdr.c:240-252 | the scan over the array returns the value model's first free slot |
| MagicCdr.CdrManager.FindSession | app_magic/magic_cdr.c:469-486 | the scan over the array returns the value model's open record |
| MagicCdr.CdrManager.CreateRecord | app_magic/magic_cdr.c:231-289 | create in place leaves the value model's state and result |
| MagicCdr.CdrManager.UpdateRecord | app_magic/magic_cdr.c:530-564 | only record k changes, as the value model's update says |
| MagicCdr.CdrManager.ArchiveRecord | app_magic/magic_cdr.c:989-1028 | archive in place leaves the value model's state, code and saved copy |
| MagicCdr.CdrManager.CloseRecord | app_magic/magic_cdr.c:291-316 | close in place leaves the value model's state and code |
| MagicCdr.CdrManager.RolloverRecord | app_magic/magic_cdr.c:318-463 | rollover in place leaves the value model's state, code and result |
| CdrJson.Fields | app_magic/magic_cdr.c:608-652 | the document is the 23 keyed fields in the order cdr_to_json prints them, each with the record's value and its separator |
| CdrJson.ToJsonBuffer | app_magic/magic_cdr.c:608-652 | rendering succeeds exactly when the buffer has at least 512 bytes and the document fits in it, and then yields the document |
| CdrJson.SkipBlanks | app_magic/magic_cdr.c:655-709 | the spaces and tabs after a key are dropped, leaving a suffix that starts with neither |
| CdrJson.FindString | app_magic/magic_cdr.c:655-679 | a string value found is shorter than the field buffer and holds no double quote |
| CdrJson.FindULong | app_magic/magic_cdr.c:696-709 | the number read is a uint64 |
| CdrJson.CopyInto | app_magic/magic_cdr.c:711-760 | the truncating copy never exceeds the destination field |
| CdrJson.FromJson | app_magic/magic_cdr.c:711-760 | the record read back has fields that fit their C widths, and is in use exactly when its status is ACTIVE |
| CdrJson.KeysDistinct | app_magic/magic_cdr.c:608-652 | no key is printed twice, so each lookup reaches its own field |
| CdrJson.FirstInDocument | app_magic/magic_cdr.c:608-709 | in a storable record's document every field is the first occurrence of its key |
| CdrJson.ReadsULong | app_magic/magic_cdr.c:696-709 | json_find_ulong reads back a value printed with %lu |
| CdrJson.ReadsLong | app_magic/magic_cdr.c:681-694 | json_find_long reads back a value printed with %d or %ld |
| CdrJson.ReadsString | app_magic/magic_cdr.c:655-679 | json_find_string reads back a quoted value that fits its buffer |
| CdrJson.IdentityReadBack | app_magic/magic_cdr.c:608-760 | the id, uuid, session, client, DLM name and bearer id read back from the document |
| CdrJson.LifecycleReadBack | app_magic/magic_cdr.c:608-760 | the status code and the start, stop and archive times read back |
| CdrJson.TrafficReadBack | app_magic/magic_cdr.c:608-760 | the byte and packet counters read back |
| CdrJson.OffsetsReadBack | app_magic/magic_cdr.c:608-760 | the two base offsets read back |
| CdrJson.OverflowReadBack | app_magic/magic_cdr.c:608-760 | the two overflow counts and the two last-seen counters read back |
| CdrJson.RoundTrip | app_magic/magic_cdr.c:608-760 | reading back the document of a storable record gives the same record, with in_use set exactly when it is ACTIVE |
| MagicDataplane.FindLink | app_magic/magic_dataplane.c:252-260 | the first live link with the id; none only when no live link has it |
| MagicDataplane.FindRule | app_magic/magic_dataplane.c:1338-1352 | the first in-use route rule of the session; none only when there is none |
| MagicDataplane.FreeRuleSlot | app_magic/magic_dataplane.c:213-221 | the first free route-rule slot; none only when all are in use |
| MagicDataplane.FreeTftSlot | app_magic/magic_dataplane.c:1531-1537 | the first free TFT-rule slot; none only when all are in use |
| MagicDataplane.RulesInUseUpdate | app_magic/magic_dataplane.c:952-1173 | replacing one route rule changes the in-use count by exactly that rule's change |
| MagicDataplane.TftsInUseUpdate | app_magic/magic_dataplane.c:1511-1733 | replacing one TFT rule changes the in-use count by exactly that rule's change |
| MagicDataplane.IpSessionsExist | app_magic/magic_dataplane.c:231-247 | another session shares the client IP exactly when the count is positive |
| MagicDataplane.SessionTftsExact | app_magic/magic_dataplane.c:1738-1759 | the session's TFT slots, listed in increasing order, are exactly the in-use slots of that session |
| MagicDataplane.DropTableCount | app_magic/magic_dataplane.c:1234-1294 | dropping a table's rules frees exactly the in-use rules routed through it |
| MagicDataplane.DropSessionCount | app_magic/magic_dataplane.c:1647-1733 | dropping a session's TFT rules frees exactly that session's in-use rules |
| MagicDataplane.InitialValid | app_magic/magic_dataplane.c:713-877 | the zeroed and the initialised plane satisfy the invariant (counts equal the in-use slots), with no links, rules or TFTs |
| MagicDataplane.RegisterValid | app_magic/magic_dataplane.c:879-950 | registering a link keeps the plane invariant |
| MagicDataplane.UnregisterValid | app_magic/magic_dataplane.c:1234-1294 | unregistering a link keeps the plane invariant |
| MagicDataplane.RegisterThenLookup | app_magic/magic_dataplane.c:879-950 | a registered link's table id is the code returned, its fwmark equals its table id, and registering it again is a no-op returning the same id; a new link on an initialised plane gets table 100 + number of links |
| MagicDataplane.TablesStayInRange | app_magic/magic_dataplane.c:879-1294 | registering and unregistering keep every link's table id within 100..109 |
| MagicDataplane.UnregisterRemovesLink | app_magic/magic_dataplane.c:1234-1294 | unregistering a link removes exactly that link, keeps the others, and frees exactly the route rules that used its table |
| MagicDataplane.TableIdReused | app_magic/magic_dataplane.c:918-931 | as written, registering SATCOM and WIFI, removing SATCOM and registering CELLULAR gives CELLULAR table 101, the table WIFI still holds |
| MagicDataplane.LowestFreeTable | app_magic/magic_dataplane.c:918-931 | the corrected choice is a table id in range that no live link holds |
| MagicDataplane.UsedTablesBound | app_magic/magic_dataplane.c:879-950 | the links hold at most as many tables as there are links |
| MagicDataplane.NoFreeTableMeansAllUsed | app_magic/magic_dataplane.c:879-950 | when no table from t on is free, every one of them is held by a link |
| MagicDataplane.FreeTableExists | app_magic/magic_dataplane.c:879-950 | with fewer than 10 links a free table id always exists |
| MagicDataplane.RegisterFreshKeepsTablesDistinct | app_magic/magic_dataplane.c:879-1294 | with the lowest free table id, registration and removal keep the links' table ids distinct, and registration succeeds exactly when the as-written one does |
| MagicDataplane.NextPriority | app_magic/magic_dataplane.c:1023-1026 | the next rule priority stays within the base..max range once there, wrapping to the base past the maximum |
| MagicDataplane.VacateCount | app_magic/magic_dataplane.c:1006-1012 | removing a session's old rule frees exactly the rules it held and changes no other rule |
| MagicDataplane.VacateClears | app_magic/magic_dataplane.c:1006-1012 | afterwards no in-use rule belongs to the session, and one rule per session still holds |
| MagicDataplane.InsertRule | app_magic/magic_dataplane.c:1015-1066 | placing a rule in a free slot for a session with none keeps one rule per session, makes it the one found and adds one to the count |
| MagicDataplane.AddRouteValid | app_magic/magic_dataplane.c:952-1101 | adding a client route keeps the plane invariant |
| MagicDataplane.RemoveRouteValid | app_magic/magic_dataplane.c:1103-1173 | removing a client route keeps the plane invariant |
| MagicDataplane.AddRouteSkipsForSharedIp | app_magic/magic_dataplane.c:952-1101 | the iptables setup is skipped only when another session shares the client IP, and exactly then on success; with routing off the call is a no-op returning 0 |
| MagicDataplane.AddRouteReplacesRule | app_magic/magic_dataplane.c:952-1101 | a successful add leaves one rule per session whose table is the link's and whose priority is the current next priority, advances the priority, and removing the route again succeeds and leaves the session without a rule |
| MagicDataplane.PlaceRuleKeepsOne | app_magic/magic_dataplane.c:1015-1068 | placing the rule keeps one rule per session with the link's table and the current priority |
| MagicDataplane.RemoveRouteBlackhole | app_magic/magic_dataplane.c:1103-1173 | removal succeeds exactly when the session has a rule, and the blackhole rule is added exactly when no remaining rule uses the client IP |
| MagicDataplane.FailedAddDropsOldRule | app_magic/magic_dataplane.c:1006-1054 | when the ip rule command fails, the session's old rule is already gone: -1, no rule for the session, one rule fewer, priority still advanced |
| MagicDataplane.Take | app_magic/magic_dataplane.c:1738-1759 | at most max slots are reported |
| MagicDataplane.Relink | app_magic/magic_dataplane.c:1765-1884 | relinking keeps every TFT slot |
| MagicDataplane.AddTftValid | app_magic/magic_dataplane.c:1511-1642 | adding a TFT rule keeps the plane invariant |
| MagicDataplane.RemoveTftsValid | app_magic/magic_dataplane.c:1647-1733 | removing a session's TFT rules keeps the plane invariant |
| MagicDataplane.RelinkedExist | app_magic/magic_dataplane.c:1765-1884 | some rule is switched exactly when a rule of the session on another link exists whose mangle command did not fail |
| MagicDataplane.SwitchTftValid | app_magic/magic_dataplane.c:1175-1197 | switching TFT rules or the client link keeps the plane invariant |
| MagicDataplane.RelinkKeepsCount | app_magic/magic_dataplane.c:1765-1884 | switching links frees and takes no TFT slot |
| MagicDataplane.AddTftThenRemove | app_magic/magic_dataplane.c:1511-1733 | adding a TFT rule takes the first free slot with the link's fwmark and the tuple, returns 0 exactly when the mangle command succeeds, and removal then frees one more rule than the session had |
| MagicDataplane.RemoveTftsClearsSession | app_magic/magic_dataplane.c:1647-1733 | after removal the session has no TFT rules and every other slot is unchanged |
| MagicDataplane.FindTftsExact | app_magic/magic_dataplane.c:1738-1759 | the slots found are the session's, in increasing order, min(max, all) of them, and all of them when max allows |
| MagicDataplane.SwitchTftOutcome | app_magic/magic_dataplane.c:1765-1884 | an unknown target link gives -1 with nothing changed; otherwise 0 exactly when some rule moved, and each movable rule whose command succeeded gets the link's fwmark and id with its tuple kept, every other slot unchanged |
| MagicDataplane.SwitchClientEdgeCases | app_magic/magic_dataplane.c:1175-1197 | a switch to the link every rule already uses gives -1 from the TFT switch, and a session without TFT rules switches with 0 and nothing changed |
| MagicDataplane.Dataplane.constructor | app_magic/magic_dataplane.c:713-735 | the static context starts zero-filled |
| MagicDataplane.Dataplane.Init | app_magic/magic_dataplane.c:713-877 | initialisation leaves the value model's initial plane |
| MagicDataplane.Dataplane.FindLinkIndex | app_magic/magic_dataplane.c:252-260 | the scan returns the value model's link |
| MagicDataplane.Dataplane.FindRuleIndex | app_magic/magic_dataplane.c:1338-1352 | the scan returns the value model's rule |
| MagicDataplane.Dataplane.FreeRuleIndex | app_magic/magic_dataplane.c:213-221 | the scan returns the value model's free rule slot |
| MagicDataplane.Dataplane.FreeTftIndex | app_magic/magic_dataplane.c:1531-1537 | the scan returns the value model's free TFT slot |
| MagicDataplane.Dataplane.CountClientIpSessions | app_magic/magic_dataplane.c:231-247 | the count is the value model's number of other sessions on the IP |
| MagicDataplane.Dataplane.GetTableId | app_magic/magic_dataplane.c:1199-1211 | the table id is the value model's |
| MagicDataplane.Dataplane.GetFwmark | app_magic/magic_dataplane.c:1494-1505 | the fwmark is the value model's |
| MagicDataplane.Dataplane.RegisterLink | app_magic/magic_dataplane.c:879-950 | registration in place leaves the value model's state and code |
| MagicDataplane.Dataplane.UnregisterLink | app_magic/magic_dataplane.c:1234-1294 | removal in place leaves the value model's state and code |
| MagicDataplane.Dataplane.SwapRemove | app_magic/magic_dataplane.c:1281-1285 | the last live link moves into the removed slot and the others stay |
| MagicDataplane.Dataplane.DropTableRules | app_magic/magic_dataplane.c:1266-1274 | the rule loop frees the table's rules as the value model says and counts them |
| MagicDataplane.Dataplane.VacateRule | app_magic/magic_dataplane.c:1006-1012 | the rule loop frees the session's old rule as the value model says |
| MagicDataplane.Dataplane.AddClientRoute | app_magic/magic_dataplane.c:952-1101 | the in-place add leaves the value model's state, code and skip flag |
| MagicDataplane.Dataplane.ConfigureLink | app_magic/magic_dataplane.c:991-1003 | the link is configured afterwards exactly when it was already or has an interface and the route table was created |
| MagicDataplane.Dataplane.PlaceClientRule | app_magic/magic_dataplane.c:1015-1068 | the second half of the add leaves the value model's state |
| MagicDataplane.Dataplane.RemoveClientRoute | app_magic/magic_dataplane.c:1103-1173 | the in-place removal leaves the value model's state, code and blackhole flag |
| MagicDataplane.Dataplane.AddTftRule | app_magic/magic_dataplane.c:1511-1642 | the in-place add leaves the value model's state and code |
| MagicDataplane.Dataplane.RemoveTftRules | app_magic/magic_dataplane.c:1647-1733 | the in-place removal leaves the value model's state and count |
| MagicDataplane.Dataplane.DropSessionRules | app_magic/magic_dataplane.c:1647-1733 | the rule loop frees the session's TFT rules as the value model says and counts them |
| MagicDataplane.Dataplane.FindTftRules | app_magic/magic_dataplane.c:1738-1759 | the slots found are the value model's |
| MagicDataplane.Dataplane.SwitchTftLink | app_magic/magic_dataplane.c:1765-1884 | the in-place switch leaves the value model's state and code |
| MagicDataplane.Dataplane.RemarkRules | app_magic/magic_dataplane.c:1765-1884 | the re-marking loop leaves the value model's relinked rules and counts them |
| MagicDataplane.Dataplane.SwitchClientLink | app_magic/magic_dataplane.c:1175-1197 | the in-place switch leaves the value model's state and code |
| MagicCicPush.DestRealm | app_magic/magic_cic_push.c:217-234 | the destination realm is at most 127 characters: a prefix of the stored client realm when there is one, otherwise "client.local" for a client id without a dot |
| MagicCicPush.DestRealmOfClientId | app_magic/magic_cic_push.c:222-227 | without a stored realm, the realm is the part of the client id after its first dot |
| MagicCicPush.ChangePercent | app_magic/magic_cic_push.c:68-73 | the change percentage as computed in uint32 and int32 arithmetic is a uint32 |
| MagicCicPush.ThresholdMeansTenPercent | app_magic/magic_cic_push.c:68-76 | with exact arithmetic a change is below the threshold exactly when it is under a tenth of the last notified bandwidth |
| MagicCicPush.GrowthComputedExactly | app_magic/magic_cic_push.c:68-73 | a growth small enough not to overflow is computed exactly as written |
| MagicCicPush.ShrinkAlwaysPasses | app_magic/magic_cic_push.c:68-76 | as written, any drop in bandwidth wraps to a huge percentage and always passes the threshold |
| MagicCicPush.FivePercentDropSent | app_magic/magic_cic_push.c:40-92 | as written a 5% drop (1000 to 950 kbps) is sent as a 4294962% change, while the intended rule holds it back |
| MagicCicPush.SuppressedChangesNothing | app_magic/magic_cic_push.c:178-286 | an MNTR the rate rule holds back returns 0 and leaves the session as it was |
| MagicCicPush.SendMntrFrame | app_magic/magic_cic_push.c:178-286 | an MNTR is sent exactly when the rule allows it and it is delivered, carrying the session id and granted bandwidth; sending marks it pending with the send time and the notified bandwidth; only those three fields change |
| MagicCicPush.ForcedIsAttempted | app_magic/magic_cic_push.c:40-92 | a forced MNTR is never held back: it is sent and returns 0 exactly when delivered |
| MagicCicPush.SecondSendSuppressed | app_magic/magic_cic_push.c:40-92 | an unforced MNTR right after a sent one is held back with nothing changed |
| MagicCicPush.ClosedOverdue | app_magic/magic_cic_push.c:296-342 | the sweep closes each overdue session and keeps every slot |
| MagicCicPush.InUseClosedOverdue | app_magic/magic_cic_push.c:296-342 | the sweep frees exactly the overdue sessions |
| MagicCicPush.MntrSweepKeepsCount | app_magic/magic_cic_push.c:296-342 | the MNTR timeout sweep keeps session_count equal to the sessions in use, closes exactly the sessions whose acknowledgement is 30 s overdue and leaves every other slot and the client contexts alone |
| MagicCicPush.UnansweredSendCloses | app_magic/magic_cic_push.c:178-342 | a delivered MNTR that gets no answer within the timeout gets its session closed and freed by the sweep |
| MagicCicPush.AnsweredNeverOverdue | app_magic/magic_cic_push.c:105-163 | an answered MNTR is never taken for overdue |
| MagicCicPush.MntrSweepLeavesSlotDirty | app_magic/magic_cic_push.c:322-326 | the swept slot is freed but not zeroed, so the session table invariant does not hold afterwards |
| MagicCicPush.WantsFollowsGrantedParts | app_magic/magic_cic_push.c:439-456 | a session wants a client join or leave report exactly when its level grants the registered-client part, and any other report exactly when it grants the DLM list |
| MagicCicPush.BroadcastReachesExactly | app_magic/magic_cic_push.c:408-598 | the broadcast sends an MSCR to exactly the subscribed sessions that want the change and whose delivery succeeds, each with its own content |
| MagicCicPush.MscrCarriesGrantedParts | app_magic/magic_cic_push.c:408-598 | an MSCR carries the registered-client list exactly when the level grants it, and the DLM list exactly when the level grants it and a DLM is named, with availability 1 for available and 2 otherwise |
| MagicCicPush.FailedMscrUnsubscribes | app_magic/magic_cic_push.c:353-395 | a session whose MSCR answer is not 2001 is unsubscribed and gets no further reports; nothing else changes |
| MagicCicPush.RegisteredInfosExact | app_magic/magic_cic_push.c:806-980 | the initial DLM list holds exactly the registered DLM clients, each reported as available |
| MagicCicPush.InitialMscrCarriesGrantedParts | app_magic/magic_cic_push.c:806-980 | a subscribed session's initial MSCR succeeds with status SUCCESS and carries exactly the parts its level grants |
| MagicCicPush.LinkSwept | app_magic/magic_cic_push.c:613-684 | the link event updates each session as the per-session rule says and keeps every slot |
| MagicCicPush.LinkMscrAvailability | app_magic/magic_cic_push.c:670-681 | the link event's MSCR reports the link available exactly when it came up, and only sessions granted the DLM list want it |
| MagicCicPush.LinkMntrsStep | app_magic/magic_cic_push.c:613-684 | the link event's MNTRs are those of the sessions in slot order |
| MagicCicPush.LinkDownSuspends | app_magic/magic_cic_push.c:613-684 | a link-down leaves sessions on other links alone; an ACTIVE session on the link is suspended with zero bandwidth and gets a LINK_ERROR MNTR with zero bandwidth when delivered |
| MagicCicPush.RecoveryReportsNoBandwidth | app_magic/magic_cic_push.c:613-684 | after a down and up of its link a session is ACTIVE again but the recovery MNTR reports zero bandwidth |
| MagicCicPush.BandwidthChangeOutcome | app_magic/magic_cic_push.c:698-739 | an unchanged bandwidth does nothing; otherwise the grant is stored with the activity time, and the MNTR carries NO_FREE_BANDWIDTH on a decrease, nothing on an increase, and the new bandwidth in bit/s as a uint32 |
| MagicCicPush.QuickSecondChangeHeld | app_magic/magic_cic_push.c:698-739 | a second bandwidth change within the rate window is stored but its MNTR is held back |
| MagicCicPush.HandoverRecordsLinks | app_magic/magic_cic_push.c:753-794 | a handover records the old link as previous and the new one as assigned, updates the gateway when one is given, and sends a FORCED_REROUTING MNTR, returning 0, exactly when delivered |
| MagicCicPush.HandoverAndBack | app_magic/magic_cic_push.c:753-794 | handing over and back restores the assigned link and gateway and records the intermediate link as previous |
| MagicCicPush.SendMntrTo | app_magic/magic_cic_push.c:178-286 | only slot k changes, as the value model's send says, with its code and message |
| MagicCicPush.CheckMntrTimeouts | app_magic/magic_cic_push.c:296-342 | the in-place sweep leaves the value model's swept table |
| MagicCicPush.BroadcastMscr | app_magic/magic_cic_push.c:408-598 | the messages sent are the value model's broadcast |
| MagicCicPush.LinkEventSlot | app_magic/magic_cic_push.c:625-666 | only slot i changes, as the per-session link rule says, with its message |
| MagicCicPush.OnLinkStatusChange | app_magic/magic_cic_push.c:613-684 | every slot changes as the value model's link sweep says, and the MNTRs and MSCRs sent are the value model's |
| MagicCicPush.BandwidthChangeAt | app_magic/magic_cic_push.c:698-739 | only slot k changes, as the value model's bandwidth change says, with its code and message |
| MagicCicPush.HandoverAt | app_magic/magic_cic_push.c:753-794 | only slot k changes, as the value model's handover says, with its code and message |
| MagicCicPush.SendInitialMscr | app_magic/magic_cic_push.c:806-980 | the code and message are the value model's initial MSCR over the registered DLM clients |
| MagicCic.FindClient | app_magic/magic_cic.c:155-195 | the first rate slot holding the id, none exactly when no slot holds it |
| MagicCic.FirstFreeRate | app_magic/magic_cic.c:155-195 | the first free rate slot, none exactly when every slot is taken |
| MagicCic.RateCheck | app_magic/magic_cic.c:155-195 | the table keeps its size, the result is 0 or -1, and a refusal (-1) leaves every timestamp untouched |
| MagicCic.RateLimiter.constructor | app_magic/magic_cic.c:155-195 | the table starts with every slot free |
| MagicCic.RateLimiter.Check | app_magic/magic_cic.c:155-195 | the loop's result and new table are RateCheck's |
| MagicCic.RateCheckKeepsDistinct | app_magic/magic_cic.c:155-195 | no client id is ever held by two slots |
| MagicCic.RateLimitBites | app_magic/magic_cic.c:155-195 | once a request is recorded, a second one from that client is refused iff it comes less than the limit later |
| MagicCic.DropSpaces | app_magic/magic_cic.c:440-446 | leading spaces are dropped and nothing else |
| MagicCic.MapFirst | app_magic/magic_cic.c:341-456 | the values of the first n tokens, in order |
| MagicCic.CodeOf | app_magic/magic_cic.c:440-446 | an airport code is at most 7 characters |
| MagicCic.ParseAltitude | app_magic/magic_cic.c:341-405 | an empty value leaves the parameters alone; otherwise only the blacklist flag (set iff "not " leads) and the range list change, the list only grows and never past 10 |
| MagicCic.ParseAirport | app_magic/magic_cic.c:417-456 | an empty value leaves the parameters alone; otherwise only the blacklist flag and the code list change, the list only grows, never past 20, with codes of at most 7 characters |
| MagicCic.ParseAltitudeAvp | app_magic/magic_cic.c:341-405 | the token loop computes ParseAltitude |
| MagicCic.ParseAirportAvp | app_magic/magic_cic.c:417-456 | the token loop computes ParseAirport |
| MagicCic.AppendTokens | app_magic/magic_cic.c:363-404 | the held values followed by one value per token, while fewer than the cap are held |
| MagicCic.AltitudeGate | app_magic/magic_cic.c:1457-1469 | the gate is AltitudeAllowed: in range (some range with current >= min and max < 0 or current <= max) for a whitelist, out of range for a blacklist |
| MagicCic.RangeOfText | app_magic/magic_cic.c:375-400 | every token "-X", "X-", "A-B" or "A" reads back as the range it was printed from |
| MagicCic.TokensOfText | app_magic/magic_cic.c:341-405 | a list joined by commas, with or without "not ", splits back into its tokens and sets the blacklist flag accordingly |
| MagicCic.AltitudeRoundTrip | app_magic/magic_cic.c:341-405 | an altitude AVP written from up to ten ranges and a flag parses back to exactly those ranges and that flag |
| MagicCic.ParseAltitudeOfTokens | app_magic/magic_cic.c:341-405 | a value whose tokens all fit appends one range per token |
| MagicCic.RangesOfTexts | app_magic/magic_cic.c:375-400 | the ranges read from the printed tokens are the ranges printed |
| MagicCic.AltitudeGateOfBand | app_magic/magic_cic.c:1457-1469 | a single band a-b admits an altitude iff it lies in the band, inverted for a blacklist |
| MagicCic.AirportRoundTrip | app_magic/magic_cic.c:417-456 | an airport AVP written from up to twenty codes and a flag parses back to exactly those codes and that flag |
| MagicCic.CodesOfCodes | app_magic/magic_cic.c:440-446 | valid codes are kept unchanged |
| MagicCic.NoLowerBoundRefusesBelowZero | app_magic/magic_cic.c:1457-1469 | "-5000" means min -1, and as written an altitude of -11 is refused by it although the range has no lower bound |
| MagicCic.InRangeIntendedOfTokens | app_magic/magic_cic.c:1457-1469 | the corrected test treats min -1 as no lower bound ("-X" admits everything up to X) and agrees with the source for every non-negative altitude |
| MagicCic.RouteIntent | app_magic/magic_cic.c:3463-3511 | never UNKNOWN; no session gives START; STOP iff all four bandwidths are 0; QUEUE iff keep_request on an AUTHENTICATED session; MODIFY iff an ACTIVE session has an assigned link; otherwise START |
| MagicCic.IntentNeedsSession | app_magic/magic_cic.c:3463-3511 | every intent other than START needs an existing session, and with bandwidth requested it is QUEUE or MODIFY |
| MagicCic.DefaultParamsRouting | app_magic/magic_cic.c:298-323 | the defaults ask for no bandwidth, so an existing session stops and a new one starts; they carry no altitude condition, so every altitude passes; class "5" queues at priority 50 |
| MagicCic.GrantedStatus | app_magic/magic_cic.c:4922-4950 | the granted level never exceeds the request and differs from it exactly when a profile forbids detailed status and 6 or 7 was asked |
| MagicCic.DowngradeDropsOnlyLinkStatus | app_magic/magic_cic.c:4922-4950 | the downgrade removes only the link-status part; registered clients and the DLM list are reported as asked |
| MagicCic.QueuePriority | app_magic/magic_cic.c:3996-3997 | the priority is a uint32 and equals 100 - 10*class for classes 0..10 |
| MagicCic.HigherClassFirst | app_magic/magic_cic.c:3996-3997 | among classes 0..10 a higher class gets a smaller number and is served first |
| MagicCic.ClassPastTenServedLast | app_magic/magic_cic.c:3996-3997 | a class above 10 wraps to a huge priority and is served after every class 0..10 |
| MccrQueue.InUseBound | app_magic/magic_cic.c:2680-2705 | the number of entries in use never exceeds the number of slots |
| MccrQueue.ZeroedValid | app_magic/magic_cic.c:2485-2496 | the zero-filled static queue (64 free slots, count 0) satisfies the queue invariant |
| MccrQueue.ExpireAll | app_magic/magic_cic.c:2505-2532 | the expiry pass keeps every one of the 64 slots |
| MccrQueue.InUseExpired | app_magic/magic_cic.c:2505-2532 | the expiry pass frees exactly the PENDING entries whose deadline has passed: in use after plus expired equals in use before |
| MccrQueue.CleanupKeepsValid | app_magic/magic_cic.c:2505-2532 | cleanup keeps count equal to the entries in use, returns how many it freed, leaves no PENDING entry past its deadline in an initialised queue and changes no other slot |
| MccrQueue.FindSession | app_magic/magic_cic.c:2557-2571 | the lookup finds the first in-use slot holding the session id, and reports none only when no in-use slot holds it |
| MccrQueue.FirstFree | app_magic/magic_cic.c:2580-2600 | the first slot not in use, or none exactly when all 64 are in use |
| MccrQueue.InUseUpdate | app_magic/magic_cic.c:2546-2634 | overwriting one slot changes the in-use count by exactly that slot's change |
| MccrQueue.InitValid | app_magic/magic_cic.c:2485-2496 | initialisation keeps the invariant and leaves the queue marked initialised |
| MccrQueue.EnqueueKeepsValid | app_magic/magic_cic.c:2546-2605 | enqueue keeps count equal to the entries in use and leaves the queue initialised |
| MccrQueue.EnqueueExisting | app_magic/magic_cic.c:2546-2605 | re-enqueueing a queued session returns 0, keeps the count and state, overwrites its parameters and priority and increments its 32-bit retry counter |
| MccrQueue.EnqueueNew | app_magic/magic_cic.c:2546-2605 | a new session is refused with -1 exactly when 64 entries are in use after cleanup; otherwise the count grows by one and a fresh PENDING entry with a 30-second deadline is stored |
| MccrQueue.AllInUse | app_magic/magic_cic.c:2580-2600 | when every slot is in use the in-use count is the capacity |
| MccrQueue.DequeueKeepsValid | app_magic/magic_cic.c:2614-2634 | dequeue keeps the invariant and returns 0 exactly when the queue is initialised and holds the session |
| MccrQueue.EnqueueThenDequeue | app_magic/magic_cic.c:2546-2634 | dequeueing a session just enqueued succeeds, removes it and lowers the count by one |
| MccrQueue.EnqueueStores | app_magic/magic_cic.c:2546-2605 | after a successful enqueue the session can be found |
| MccrQueue.EnqueueKeepsUnique | app_magic/magic_cic.c:2546-2605 | enqueue never stores a session id twice |
| MccrQueue.BestOf | app_magic/magic_cic.c:2642-2671 | the chosen entry is PENDING with priority below UINT32_MAX, no waiting entry has a lower priority and every earlier waiting entry a strictly higher one; none only when no waiting entry has a usable priority |
| MccrQueue.PeekKeepsValid | app_magic/magic_cic.c:2642-2671 | peeking keeps the invariant and marks the chosen entry PROCESSING |
| MccrQueue.WaitingAtMostInUse | app_magic/magic_cic.c:2680-2705 | the PENDING entries are a subset of those in use |
| MccrQueue.StatusBounds | app_magic/magic_cic.c:2680-2705 | the reported pending count is at most the total, which is at most 64 |
| MccrQueue.QueueManager.constructor | app_magic/magic_cic.c:2470-2478 | the manager starts zero-filled and uninitialised |
| MccrQueue.QueueManager.Init | app_magic/magic_cic.c:2485-2496 | the array-backed queue ends in the initialised state of the value model |
| MccrQueue.QueueManager.CleanupExpired | app_magic/magic_cic.c:2505-2532 | the in-place pass returns the freed count and leaves the state the value model's cleanup gives |
| MccrQueue.QueueManager.FindEntry | app_magic/magic_cic.c:2557-2571 | the scan over the array returns the value model's first matching slot |
| MccrQueue.QueueManager.FreeSlot | app_magic/magic_cic.c:2580-2600 | the scan over the array returns the value model's first free slot |
| MccrQueue.QueueManager.Enqueue | app_magic/magic_cic.c:2546-2605 | the in-place enqueue returns the code and leaves the state of the value model's enqueue |
| MccrQueue.QueueManager.Dequeue | app_magic/magic_cic.c:2614-2634 | the in-place dequeue returns the code and leaves the state of the value model's dequeue |
| MccrQueue.QueueManager.PeekHighestPriority | app_magic/magic_cic.c:2642-2671 | the in-place peek returns the value model's choice and its PROCESSING update |
| MccrQueue.QueueManager.BestWaiting | app_magic/magic_cic.c:2653-2663 | the priority scan returns the best waiting entry as the value model defines it |
| MccrQueue.QueueManager.GetStatus | app_magic/magic_cic.c:2680-2705 | the counts returned are those of the value model's status |
| MccrQueue.FindSessionIs | app_magic/magic_cic.c:2557-2571 | a slot that holds the session with no earlier one holding it is the one found |
| MccrQueue.FirstFreeIs | app_magic/magic_cic.c:2580-2600 | a free slot with every earlier slot in use is the one found |
| DlmCommon.TotalUpdate | app_magic/dlm_common.h:313-374 | replacing one bearer slot changes a usage sum by exactly the difference of the two slots' weights |
| DlmCommon.TotalOfCleared | app_magic/dlm_common.h:210-217 | a cleared bearer map sums to zero |
| DlmCommon.FirstInactive | app_magic/dlm_common.h:324-327 | the first inactive bearer slot; none only when all are active |
| DlmCommon.FindActive | app_magic/dlm_common.h:355-374 | the first active slot carrying the id; none only when no active slot carries it |
| DlmCommon.InitialConsistent | app_magic/dlm_common.h:210-217 | the initial state's usage and count equal the sums over the (empty) active slots and usage is within any capacity |
| DlmCommon.AllocateConsistent | app_magic/dlm_common.h:313-346 | allocation, whatever the outcome, keeps usage equal to the allocated sums modulo 2^32 and the count equal to the active slots |
| DlmCommon.SlotsBound | app_magic/dlm_common.h:324-331 | a free slot means fewer active bearers than slots |
| DlmCommon.ReleaseConsistent | app_magic/dlm_common.h:355-374 | release, whatever the outcome, keeps the same bookkeeping |
| DlmCommon.AllocateWithinCapacity | app_magic/dlm_common.h:319-323 | an allocation never takes usage beyond the configured maxima |
| DlmCommon.ReleaseWithinCapacity | app_magic/dlm_common.h:355-374 | with exact (unwrapped) usage, release keeps usage exact and within the maxima |
| DlmCommon.AllocateReleaseRoundTrip | app_magic/dlm_common.h:313-374 | releasing the bearer just allocated restores the state except that the uint8 id counter has advanced |
| DlmCommon.PlacedFound | app_magic/dlm_common.h:332-337 | a bearer placed with an id no active slot carries is the one found for that id |
| DlmCommon.UsageWrapHazard | app_magic/dlm_common.h:319-320 | as written, a request of 2^32-1 after one of 1 wraps the uint32 sum and is admitted; releasing the first bearer leaves usage at 2^32-1, far beyond the maximum |
| DlmCommon.AllocateCheckedKeepsCapacity | app_magic/dlm_common.h:313-346 | with the admission test done without wrap-around, allocation keeps usage exact and within the maxima |
| DlmCommon.AllocateCheckedAgrees | app_magic/dlm_common.h:319-320 | where no sum wraps the corrected test decides as the code does |
| DlmCommon.AllocateCheckedRefusesWrap | app_magic/dlm_common.h:319-320 | the corrected test refuses the request that wraps the sum |
| DlmCommon.DlmState.constructor | app_magic/dlm_common.h:210-217 | the state starts with no bearers, next id 1, RSSI -60 and quality 80 |
| DlmCommon.DlmState.AllocateBearer | app_magic/dlm_common.h:313-346 | the in-place allocation leaves the value model's state, code and id |
| DlmCommon.DlmState.ReleaseBearer | app_magic/dlm_common.h:355-374 | the in-place release leaves the value model's state and code |
| DlmCommon.DropLead | app_magic/dlm_common.h:473 | leading spaces and tabs are dropped: the result starts with neither |
| DlmCommon.DropTrail | app_magic/dlm_common.h:474-477 | trailing space, tab, newline and carriage return are dropped |
| DlmCommon.DlmTrimmed | app_magic/dlm_common.h:472-479 | the trimmed text starts with no space or tab and, past its first character, ends with no blank |
| DlmCommon.CleanTrimmed | app_magic/dlm_common.h:472-479 | text without surrounding blanks is left as it is |
| DlmCommon.TrimIdempotent | app_magic/dlm_common.h:472-479 | trimming twice is trimming once |
| DlmCommon.TrimKeepsFirst | app_magic/dlm_common.h:472-479 | the trailing loop never removes the first remaining character: " \r\n" trims to "\r" |
| DlmCommon.DlmTrim | app_magic/dlm_common.h:472-479 | the in-place trim returns the bounds of the trimmed text, everything before it a leading blank and everything after it a trailing blank |
| DlmCommon.LoadConfig | app_magic/dlm_common.h:490-622 | a missing file gives -1 with nothing changed; otherwise 0 and the configuration the lines give |
| DlmCommon.ApplyLineFits | app_magic/dlm_common.h:509-612 | every line keeps every loaded string within its C buffer |
| DlmCommon.LoadFits | app_magic/dlm_common.h:490-622 | loading any file keeps every loaded string within its C buffer |
| DlmCommon.IgnoredLinesChangeNothing | app_magic/dlm_common.h:512-518 | blank and comment lines do not affect the result |
| DlmCommon.NoSettingsGiveDefaults | app_magic/dlm_common.h:500-622 | a file without settings gives the given link configuration and the default network configuration |
| DlmCommon.HeadersKeepStructures | app_magic/dlm_common.h:519-527 | section headers alone change no setting |
| DlmCommon.HeaderRoundTrip | app_magic/dlm_common.h:519-527 | a section header reads back as the name it was written with |
| DlmCommon.SettingRoundTrip | app_magic/dlm_common.h:529-536 | a key=value line reads back as that key and value |
| DlmCommon.ApplySetting | app_magic/dlm_common.h:529-612 | a key=value line applies that setting to the current section |
| DlmCommon.GatewayDefaultsToAddress | app_magic/dlm_common.h:551-558 | ip_address also sets the gateway until a gateway key overrides it |
| DlmCommon.LinkTypeIgnoresCase | app_magic/dlm_common.h:540-544 | link_type accepts satcom, cellular and wifi in any case; anything else leaves the type as it was |
| DlmCommon.FlagValues | app_magic/dlm_common.h:594-596 | the boolean keys accept "true" in any case and "1", nothing else |
| MagicPolicy.WildcardMatch | app_magic/magic_policy.c:30-72 | true iff neither side is NULL and the pattern matches the whole text ('*' any run, '?' one character, others equal up to case) |
| MagicPolicy.MatchFrom | app_magic/magic_policy.c:40-71 | the recursive matcher agrees with Matches |
| MagicPolicy.StarMatchesAnything | app_magic/magic_policy.c:30-72 | a lone '*' matches every text, the empty one included |
| MagicPolicy.QuestionMatchesOneChar | app_magic/magic_policy.c:30-72 | a lone '?' matches exactly the one-character texts |
| MagicPolicy.LiteralPatternMatches | app_magic/magic_policy.c:30-72 | a pattern without wildcards matches exactly the texts equal to it up to case |
| MagicPolicy.LastDefault | app_magic/magic_policy.c:94-148 | the index of the last default definition, and none exactly when there is no default |
| MagicPolicy.FirstClaim | app_magic/magic_policy.c:94-148 | the first non-default definition claiming the client by priority class, QoS level or profile pattern; none exactly when no definition claims it |
| MagicPolicy.ClassifyTraffic | app_magic/magic_policy.c:94-148 | the class is Classification's: the first claiming definition, else the last default, else "BEST_EFFORT" |
| MagicPolicy.PatternHit | app_magic/magic_policy.c:123-135 | the loop answers whether some pattern matches the profile name |
| MagicPolicy.CanSwitchLinkGuards | app_magic/magic_policy.c:234-286 | no current link allows a switch; the same link or a switch within the dwell time refuses it |
| MagicPolicy.CanSwitchLinkHysteresis | app_magic/magic_policy.c:234-286 | past the guards, with both percentages positive, a switch is allowed iff new >= current + current*h/100 (integer division) |
| MagicPolicy.PercentProduct | app_magic/magic_policy.c:270-280 | the hysteresis product of two percentages stays below 10000 |
| MagicPolicy.LinkScoreRanking | app_magic/magic_policy.c:318-369 | one rank better scores exactly 1000 more, other things equal |
| MagicPolicy.LinkScoreRejects | app_magic/magic_policy.c:318-369 | a link over the preference's latency limit scores -999999; any other scores at least -5050 |
| MagicPolicy.RuleWithClass | app_magic/magic_policy.c:536-581 | the first rule with exactly that class, none exactly when no rule has it |
| MagicPolicy.MatchRule | app_magic/magic_policy.c:536-581 | a matched rule has the dynamic class, "ALL_TRAFFIC" or "PRIORITY_<n>"; no rule is found only when none has the class or "ALL_TRAFFIC" |
| MagicPolicy.Pick | app_magic/magic_policy.c:596-745 | a selection is one of the preferences scanned |
| MagicPolicy.PickIsBest | app_magic/magic_policy.c:596-745 | the selected preference carries the best score, above -999999; no candidate scores higher; every earlier candidate scores strictly lower (ties keep the earliest); none selected means the best stayed -999999 |
| MagicPolicy.SelectPathSound | app_magic/magic_policy.c:425-746 | success grants exactly the requested bandwidths and QoS, for a known enabled client, on a link that is allowed for the client, configured and active |
| MagicPolicy.SelectPathRefuses | app_magic/magic_policy.c:448-512 | an unknown or disabled client, or no ruleset at all, gives -1 |
| MagicPolicy.SelectPath | app_magic/magic_policy.c:425-746 | the code and response are SelectPathSpec's |
| MagicPolicy.PickBest | app_magic/magic_policy.c:596-745 | the preference loop computes Pick over all preferences |
| MagicPolicy.ScorePreference | app_magic/magic_policy.c:596-720 | one preference is skipped or scored as Candidate prescribes |
| MagicPolicy.LatencyRejectedLinkSelected | app_magic/magic_policy.c:318-369 | as written, an idle preferred link over its latency limit scores -999999+500 and is selected |
| MagicPolicy.CandidateChecked | app_magic/magic_policy.c:596-720 | the corrected candidate, which drops a link over its latency limit, otherwise scores as the source |
| MagicPolicy.PickChecked | app_magic/magic_policy.c:596-745 | with the corrected scoring a selection is one of the preferences scanned |
| MagicPolicy.PickCheckedRespectsLatency | app_magic/magic_policy.c:596-745 | with the corrected scoring the selected link is configured, active and within its latency limit |
| MagicConfig.ParseDlmType | app_magic/magic_config.c:163-177 | a known type comes only from a text whose atoi is its code 1, 2 or 3; everything else is UNKNOWN |
| MagicConfig.DlmTypeRoundTrip | app_magic/magic_config.c:163-177 | the written code of every type reads back as that type |
| MagicConfig.LoadBalanceSpellings | app_magic/magic_config.c:184-204 | each algorithm is read back from its name and from its code 1..3 |
| MagicConfig.ParsePolicyAction | app_magic/magic_config.c:272-284 | PERMIT iff the text is exactly "PERMIT", PROHIBIT iff exactly "PROHIBIT"; anything else, NULL included, is DEFAULT |
| MagicConfig.ParseFlightPhase | app_magic/magic_config.c:291-313 | TAKE_OFF iff the text is "TAKE_OFF" or "TAKEOFF"; any other known phase only from its own name; NULL and unknown texts give UNKNOWN |
| MagicConfig.FlightPhaseRoundTrip | app_magic/magic_config.c:291-313 | every known phase reads back from its name |
| MagicConfig.ParsePriorityType | app_magic/magic_config.c:320-329 | BLOCKING iff atoi gives 1, PREEMPTION iff it gives 2, otherwise UNKNOWN |
| MagicConfig.ChildBool | app_magic/magic_config.c:338-348 | "true"/"1" give true, "false"/"0" give false, an absent or other text gives the default |
| MagicConfig.KbpsOf | app_magic/magic_config.c:978-985 | a bandwidth in kbps is a uint32 bps value divided by 1000 |
| MagicConfig.KbpsOfWrittenRate | app_magic/magic_config.c:978-985 | a rate written in bps reads back as whole kbps, rounded down |
| MagicConfig.FindDlm | app_magic/magic_config.c:1391-1401 | the first DLM with exactly that name, none exactly when no DLM has it |
| MagicConfig.FindClient | app_magic/magic_config.c:1478-1493 | the first profile with exactly that client id, none exactly when no profile has it |
| MagicConfig.FindClientByProfile | app_magic/magic_config.c:1505-1526 | a result is the first profile with that name and is enabled |
| MagicConfig.FindClientByProfileMeans | app_magic/magic_config.c:1505-1526 | the first profile with the name is returned iff it is enabled: a disabled first match hides a later enabled one |
| MagicConfig.AllowListConventions | app_magic/magic_config.c:1458-1610 | NULL client allows nothing; an empty allow list allows everything; a non-empty DLM list allows exactly its members; a DLM with no QoS list supports no level |
| MagicConfig.FindRuleset | app_magic/magic_config.c:1620-1634 | the first rule set whose phase text contains the phase as a substring, none exactly when no rule set does |
| MagicConfig.FindRulesetBySubstring | app_magic/magic_config.c:1620-1634 | a rule set whose phase list contains the name anywhere is found, so "CLIMB" also matches a list reading "CLIMB_OUT" |
| MagicConfig.ParseLinkType | app_magic/magic_config.c:146-156 | SATELLITE and CELLULAR only from their exact names, HYBRID exactly from "GATELINK" or "HYBRID"; anything else, NULL included, is UNKNOWN |
| MagicConfig.ParseCoverage | app_magic/magic_config.c:235-245 | GLOBAL, TERRESTRIAL and GATE_ONLY each only from its exact name; anything else is UNKNOWN |
| MagicConfig.ParseSecurityLevel | app_magic/magic_config.c:250-259 | HIGH, MEDIUM and LOW, each only from its exact name, give 3, 2 and 1; anything else, NULL included, gives 0 |
| MagicTftValidator.IpTextReadsBack | app_magic/magic_tft_validator.c:37-52 | inet_pton reads back every address inet_ntop writes |
| MagicTftValidator.PtonCanonical | app_magic/magic_tft_validator.c:37-52 | a text inet_pton accepts is exactly the text written for its address |
| MagicTftValidator.MaskedRangeHolds | app_magic/magic_tft_validator.c:93-113 | a range computed as ip & mask .. ip \| ~mask contains ip |
| MagicTftValidator.CidrRange | app_magic/magic_tft_validator.c:93-113 | the network of ip/p contains ip |
| MagicTftValidator.CidrExtremes | app_magic/magic_tft_validator.c:93-113 | /32 is the address alone and /0 the whole address space |
| MagicTftValidator.ParseIpRange | app_magic/magic_tft_validator.c:80-146 | an accepted range is in order |
| MagicTftValidator.CidrForm | app_magic/magic_tft_validator.c:93-113 | "ip/p" with a non-zero ip and p <= 32 parses to the network of ip/p |
| MagicTftValidator.CidrOfZeroRefused | app_magic/magic_tft_validator.c:93-113 | a CIDR range on the address 0.0.0.0 is refused, whatever the prefix |
| MagicTftValidator.DashForm | app_magic/magic_tft_validator.c:115-135 | "lo-hi" is accepted iff both ends are non-zero and lo <= hi, and then gives exactly lo..hi |
| MagicTftValidator.SingleForm | app_magic/magic_tft_validator.c:136-145 | a text without '/' or '-' gives the one-address range of the address it reads as, and is refused when it is not an address |
| MagicTftValidator.RangeTextReadsBack | app_magic/magic_tft_validator.c:665-682 | a printed range parses back to itself, except a span starting at 0.0.0.0, which is refused |
| MagicTftValidator.RangeOf | app_magic/magic_tft_validator.c:148-196 | a token range a..b exists iff 0 <= a <= b <= 65535 |
| MagicTftValidator.ParsePortRange | app_magic/magic_tft_validator.c:148-196 | an accepted list has at most max ranges, each valid and inside 0..65535 |
| MagicTftValidator.PortTokenRange | app_magic/magic_tft_validator.c:170-180 | "a-b" reads as a..b exactly when a <= b <= 65535 |
| MagicTftValidator.PortTokenSingle | app_magic/magic_tft_validator.c:181-188 | a single number reads as one port exactly when it is at most 65535 |
| MagicTftValidator.PortTextReadsBack | app_magic/magic_tft_validator.c:148-196 | a port range written out reads back as itself |
| MagicTftValidator.PortListReadsBack | app_magic/magic_tft_validator.c:148-196 | a list of up to max ranges written with commas reads back as the same list |
| MagicTftValidator.BadTokenRefuses | app_magic/magic_tft_validator.c:148-196 | one bad token among the first max makes the whole list fail |
| MagicTftValidator.LeadingTokens | app_magic/magic_tft_validator.c:160-193 | every range the loop keeps is what its token reads as |
| MagicTftValidator.LeadingStops | app_magic/magic_tft_validator.c:160-193 | the loop keeps nothing from the first refused token on |
| MagicTftValidator.ProtocolNumber | app_magic/magic_tft_validator.c:220-244 | the protocol number always fits a byte |
| MagicTftValidator.ProtocolNames | app_magic/magic_tft_validator.c:220-244 | TCP is 6, UDP 17, ICMP 1 and IP 0, in either case |
| MagicTftValidator.ProtocolIgnoresCase | app_magic/magic_tft_validator.c:220-244 | two names equal up to case give the same number |
| MagicTftValidator.ProtocolOfNumber | app_magic/magic_tft_validator.c:236-243 | a written number is its own protocol when at most 255, and 0 above |
| MagicTftValidator.UnknownNameIsAny | app_magic/magic_tft_validator.c:236-243 | a name that starts with a letter and is none of the four gives 0 |
| MagicTftValidator.Word | app_magic/magic_tft_validator.c:306-311 | a copied field is a prefix of the text without white space, at most cap long, that stops only at white space, the end or the cap |
| MagicTftValidator.ParseRule | app_magic/magic_tft_validator.c:250-392 | a parsed rule has both address ranges in order, an unset source port (the parser never fills it), a destination port range inside 0..65535 and, without a protocol word, protocol 0 |
| MagicTftValidator.ParseTo | app_magic/magic_tft_validator.c:320-392 | the rule after the source keeps that source |
| MagicTftValidator.DestOf | app_magic/magic_tft_validator.c:328-370 | a destination field gives an ordered range and a port range inside 0..65535, and 0-65535 when it has no ':' |
| MagicTftValidator.DestTextReadsBack | app_magic/magic_tft_validator.c:328-370 | a destination written with or without ports reads back with those ports, or 0-65535 |
| MagicTftValidator.OnePortReadsBack | app_magic/magic_tft_validator.c:355-358 | a single written range is the one range the destination keeps |
| MagicTftValidator.RuleTextReadsBack | app_magic/magic_tft_validator.c:250-392 | a rule written as "permit out\|in ip from SRC to DST[:PORTS] [PROTO]" parses to SRC, DST, the ports (or 0-65535), an unset source port, and the protocol word's number with has_protocol iff the word is present |
| MagicTftValidator.DirectionFields | app_magic/magic_tft_validator.c:267-288 | after "permit", "out" gives an outbound and "in" an inbound rule |
| MagicTftValidator.FromFields | app_magic/magic_tft_validator.c:290-318 | the "ip from SRC" part reads the source range and the parse goes on after it |
| MagicTftValidator.ToFields | app_magic/magic_tft_validator.c:320-392 | the "to" part fails exactly when the destination does not parse |
| MagicTftValidator.ToReadsBack | app_magic/magic_tft_validator.c:320-392 | the "to DST [PROTO]" part reads back the destination, its ports and the protocol |
| MagicTftValidator.Validate | app_magic/magic_tft_validator.c:398-595 | the result is 0, -1 or -2, and -2 only when the rule or one of the configured whitelist texts does not parse |
| MagicTftValidator.Check | app_magic/magic_tft_validator.c:422-595 | for a parsed rule: 0, -1 or -2, and -2 only for an unparsable whitelist text |
| MagicTftValidator.CheckDestPorts | app_magic/magic_tft_validator.c:455-595 | 0, -1 or -2, and -2 only for an unparsable port list |
| MagicTftValidator.CheckSource | app_magic/magic_tft_validator.c:517-595 | 0, -1 or -2, and -2 only for an unparsable source port list |
| MagicTftValidator.CheckProtocol | app_magic/magic_tft_validator.c:573-591 | 0 or -1 |
| MagicTftValidator.ValidateOfParsed | app_magic/magic_tft_validator.c:411-417 | a rule that parses is judged by the whitelist checks alone |
| MagicTftValidator.ValidateGrants | app_magic/magic_tft_validator.c:398-595 | a parsed rule is granted iff every destination address lies in the whitelist range, one listed range covers the destination ports, the source list (when configured) holds a range starting at 0, and the protocol is unrestricted, absent, 0 or listed |
| MagicTftValidator.CheckGrants | app_magic/magic_tft_validator.c:422-595 | the same four conditions decide the checks after parsing |
| MagicTftValidator.DestinationInside | app_magic/magic_tft_validator.c:441-453 | both ends inside the whitelist range iff every address of the destination range is inside it |
| MagicTftValidator.PortCheckIsCoverage | app_magic/magic_tft_validator.c:479-515 | the port check with its flag passes iff one listed range covers the whole requested range |
| MagicTftValidator.SpanningRangeRefused | app_magic/magic_tft_validator.c:493-506 | 50-150 is refused against 0-100,101-200 although every port in it is listed |
| MagicTftValidator.SourcePortNeedsZero | app_magic/magic_tft_validator.c:517-569 | because the parser never sets the source port, a configured source list accepts iff one of its ranges starts at 0 |
| MagicTftValidator.ZeroPortOnly | app_magic/magic_tft_validator.c:517-569 | an unset source port passes a list iff one of its ranges starts at 0 |
| MagicTftValidator.ProtocolCheckMeans | app_magic/magic_tft_validator.c:573-591 | the protocol check passes iff no protocols are configured, the rule has none or 0, or some configured name maps to its number |
| MagicTftValidator.EmptyWhitelistGrants | app_magic/magic_tft_validator.c:422-475 | with nothing configured a rule is granted iff it parses |
| MagicTftValidator.AnyPortGrants | app_magic/magic_tft_validator.c:422-475 | every parsed rule passes an empty whitelist |
| MagicTftValidator.PortInRanges | app_magic/magic_tft_validator.c:205-218 | the loop answers whether the port lies in one of the first n ranges |
| MagicTftValidator.ParsePortList | app_magic/magic_tft_validator.c:148-196 | -1 iff the list is refused; otherwise the array's first count ranges are the parsed list |
| MagicTftValidator.ReadTokens | app_magic/magic_tft_validator.c:160-193 | -1 iff some token is refused, otherwise every token read in order into the array |
| MagicTftValidator.ProtocolNameToNumber | app_magic/magic_tft_validator.c:220-244 | the number is ProtocolNumber's |
| MagicTftValidator.RangeCovered | app_magic/magic_tft_validator.c:494-506 | the loop answers whether one of the first n ranges covers the requested range |
| MagicTftValidator.CheckPorts | app_magic/magic_tft_validator.c:479-515 | the flagged check is PortAllowed's |
| MagicTftValidator.ProtocolAllowed | app_magic/magic_tft_validator.c:574-591 | the loop answers whether some allowed name maps to the number |
| MagicTftValidator.SkipSpaces | app_magic/magic_tft_validator.c:274 | white space is skipped as SkipSpace prescribes |
| MagicTftValidator.CopyWord | app_magic/magic_tft_validator.c:306-311 | the loop copies Word's field and leaves the rest |
| MagicTftValidator.WordIs | app_magic/magic_tft_validator.c:306-311 | a field stops at the first white space, the end or the cap |
| MagicTftValidator.ParseDest | app_magic/magic_tft_validator.c:328-370 | the destination reads as DestOf |
| MagicTftValidator.ParseTftRule | app_magic/magic_tft_validator.c:250-392 | 0 iff ParseRule accepts, with ParseRule's rule |
| MagicTftValidator.ParseFromAt | app_magic/magic_tft_validator.c:290-392 | the walk after the direction succeeds iff ParseFrom does, with its rule |
| MagicTftValidator.ParseToAt | app_magic/magic_tft_validator.c:320-392 | the walk after the source succeeds iff ParseTo does, with its rule |
| MagicTftValidator.ValidateAgainstWhitelist | app_magic/magic_tft_validator.c:398-595 | the code is Validate's |
| MagicTftValidator.CheckRule | app_magic/magic_tft_validator.c:422-595 | the code is Check's |
| MagicTftValidator.CheckDestPortsOf | app_magic/magic_tft_validator.c:455-595 | the code is CheckDestPorts's |
| MagicTftValidator.CheckRest | app_magic/magic_tft_validator.c:517-595 | the code is CheckSource's |
| MagicTftValidator3gpp.ParseIpWithMask | magic_tft_validator_3gpp.c:47-75 | succeeds iff both the address and the mask are dotted quads, and the range [ip & mask, ip \| ~mask] then contains the address |
| MagicTftValidator3gpp.MaskIsPrefix | magic_tft_validator_3gpp.c:47-75 | an address with the mask of prefix p gives exactly the CIDR range of ip/p |
| MagicTftValidator3gpp.ParsePortRange3gpp | magic_tft_validator_3gpp.c:88-110 | a parsed "start.end" range is valid with start <= end <= 65535 |
| MagicTftValidator3gpp.PortRangeReadsBack | magic_tft_validator_3gpp.c:88-110 | the text "a.b" parses to the range a..b exactly when a <= b <= 65535, and is refused otherwise |
| MagicTftValidator3gpp.PortField | magic_tft_validator_3gpp.c:286-310 | a port field always yields a valid range inside 0..65535: the parsed one, or 0-65535 when the field is empty or does not parse |
| MagicTftValidator3gpp.AddressField | magic_tft_validator_3gpp.c:214-243 | a source field yields a range only from eight dotted components, and such a range is ordered |
| MagicTftValidator3gpp.DestField | magic_tft_validator_3gpp.c:245-278 | a destination field yields an ordered range from eight components, or the whole space for the literal "0.0.0.0.0.0.0.0" |
| MagicTftValidator3gpp.AddressFieldReadsBack | magic_tft_validator_3gpp.c:214-243 | an address and a mask written out as eight components read back as [a & m, a \| ~m] |
| MagicTftValidator3gpp.ZeroDestination | magic_tft_validator_3gpp.c:265-277 | the all-zero destination field has eight components and gives the whole address space |
| MagicTftValidator3gpp.OctetPiecesJoin | magic_tft_validator_3gpp.c:221-232 | components of at most 15 characters without a dot, joined by dots, are cut back into the same components |
| MagicTftValidator3gpp.Fields | magic_tft_validator_3gpp.c:181-198 | the field split keeps at most 15 fields |
| MagicTftValidator3gpp.PiecesJoin | magic_tft_validator_3gpp.c:181-198 | joining the pieces of the split with commas gives back the text: empty fields are kept and nothing is lost |
| MagicTftValidator3gpp.PiecesSplit | magic_tft_validator_3gpp.c:181-198 | with at most 15 fields the split is exactly the split at every comma |
| MagicTftValidator3gpp.FieldsOfJoin | magic_tft_validator_3gpp.c:181-198 | two to fifteen comma-free fields, joined by commas, are split back into the same fields |
| MagicTftValidator3gpp.ParseRule3gpp | magic_tft_validator_3gpp.c:159-314 | every text parses to a rule whose two port ranges are valid and inside 0..65535 and whose protocol fits a byte |
| MagicTftValidator3gpp.NoCommaRequest | magic_tft_validator_3gpp.c:159-314 | a text with no comma after the prefix sets no address and no protocol and leaves both ports at 0-65535 |
| MagicTftValidator3gpp.OutboundFields | magic_tft_validator_3gpp.c:171-198 | "_iTFT=" followed by eight short comma-free fields is an outbound rule whose fields are exactly those eight |
| MagicTftValidator3gpp.GroundDefault | tools/cert_generator/cert_generator.py:729-731 | the generator's ground rule for a client address parses to source = that address, destination = 10.2.2.8, protocol 6, destination port 80, any source port |
| MagicTftValidator3gpp.AirDefault | tools/cert_generator/cert_generator.py:729-731 | the generator's air rule parses to source = 10.2.2.8, destination = the client address, protocol 6, source port 80, any destination port |
| MagicTftValidator3gpp.PlaceholderUnset | tools/cert_generator/cert_generator.py:400-406 | an address field holding the literal "{client_ip}" gives no range, as source or as destination |
| MagicTftValidator3gpp.PlaceholderGround | tools/cert_generator/cert_generator.py:400-406 | the profile's default ground rule parses with no source range, so its source address is never checked |
| MagicTftValidator3gpp.PlaceholderAir | tools/cert_generator/cert_generator.py:400-406 | the profile's default air rule parses with no destination range |
| MagicTftValidator3gpp.PlaceholderGroundGrants | magic_tft_validator_3gpp.c:507-568 | the default ground entry admits a request iff it is TCP, its destination lies at 10.2.2.8 (or is unset) and its destination port is exactly 80 |
| MagicTftValidator3gpp.TrimEnd | magic_tft_validator_3gpp.c:467-471 | trailing blanks are cut and only blanks: the result is a prefix, everything cut is a blank, and the last kept character (past the first) is not a blank |
| MagicTftValidator3gpp.Validate3gpp | magic_tft_validator_3gpp.c:447-588 | the result is 0 or -1 |
| MagicTftValidator3gpp.ValidateGrants | magic_tft_validator_3gpp.c:447-588 | 0 iff some whitelist entry admits the trimmed request (protocol, both address ranges and both port ranges checked as the source does); an empty whitelist therefore gives -1 |
| MagicTftValidator3gpp.AnyAdmitsSome | magic_tft_validator_3gpp.c:495-569 | the walk accepts iff some entry admits the request |
| MagicTftValidator3gpp.AdmitsItself | magic_tft_validator_3gpp.c:507-568 | every parsed rule admits itself |
| MagicTftValidator3gpp.ListedGranted | magic_tft_validator_3gpp.c:447-588 | a request listed verbatim (after trimming) in the whitelist is accepted |
| MagicTftValidator3gpp.AdmitsNarrower | magic_tft_validator_3gpp.c:507-568 | an entry that admits a request admits every narrower request with the same protocol |
| MagicTftValidator3gpp.UnsetAddressesAdmitted | magic_tft_validator_3gpp.c:516-532 | a request without address ranges passes the address checks of every entry |
| MagicTftValidator3gpp.SplitFields | magic_tft_validator_3gpp.c:181-198 | the array loop fills fields[0..count) with exactly the split fields and leaves the rest empty |
| MagicTftValidator3gpp.SplitLoop | magic_tft_validator_3gpp.c:189-198 | the loop's closed fields plus the open one are the split of the text |
| MagicTftValidator3gpp.SplitOctets | magic_tft_validator_3gpp.c:221-232 | the component loop stores exactly the components of the field |
| MagicTftValidator3gpp.CutComponents | magic_tft_validator_3gpp.c:221-229 | the dot loop stops at eight components, at a missing dot or at a too-long component, and what it stored plus the rest are the components |
| MagicTftValidator3gpp.ReadAddress | magic_tft_validator_3gpp.c:214-243 | the component count and the range are those of AddressField |
| MagicTftValidator3gpp.ParseTft3gpp | magic_tft_validator_3gpp.c:159-314 | returns 0 with the rule ParseRule3gpp gives |
| MagicTftValidator3gpp.ReadFields | magic_tft_validator_3gpp.c:214-310 | fields 3 to 7 read into the rule RuleOfFields describes |
| MagicTftValidator3gpp.ReadSource | magic_tft_validator_3gpp.c:214-243 | field 3 reads as AddressField |
| MagicTftValidator3gpp.ReadDest | magic_tft_validator_3gpp.c:245-278 | field 4 reads as DestField |
| MagicTftValidator3gpp.ReadProtocol | magic_tft_validator_3gpp.c:280-284 | a protocol is present iff field 5 is non-empty, and it is (uint8_t)atoi of the field, 0 otherwise |
| MagicTftValidator3gpp.ReadPorts | magic_tft_validator_3gpp.c:286-310 | a port field reads as PortField |
| MagicTftValidator3gpp.EntryAdmits | magic_tft_validator_3gpp.c:507-568 | one entry's checks accept iff Admits holds |
| MagicTftValidator3gpp.RangeWithin | magic_tft_validator_3gpp.c:516-532 | an address range passes iff either side is unset or the request lies inside the entry |
| MagicTftValidator3gpp.PortsWithin | magic_tft_validator_3gpp.c:534-560 | a port range passes iff either side is invalid, the entry is exactly 0-65535, or the request lies inside it |
| MagicTftValidator3gpp.ValidateAgainstWhitelist3gpp | magic_tft_validator_3gpp.c:447-588 | the code is Validate3gpp's |
| MagicTftValidator3gpp.NormalizeRequest | magic_tft_validator_3gpp.c:459-471 | the trimmed copy is Normalize's: leading blanks dropped, cut to 511 characters, trailing blanks dropped |
| MagicTftValidator3gpp.WalkWhitelist | magic_tft_validator_3gpp.c:495-588 | 0 iff some parsed entry admits the request, else -1 |
| MagicTftValidator3gpp.CheckEntry | magic_tft_validator_3gpp.c:495-568 | entry i is parsed and checked as Admits prescribes |
| MihProtocol.ResourceActionNames | mih_protocol.h:388-397 | an action has a name exactly when it is REQUEST or RELEASE, and the two names differ |
| MihProtocol.StatusNames | mih_protocol.h:404-421 | a status has a name exactly when it is 0..5, and the names are distinct |
| MihProtocol.CosNames | mih_protocol.h:428-449 | a class of service has a name exactly when it is 0..7, and the names are distinct |
| MihProtocol.LinkDownReasonNames | mih_protocol.h:924-945 | a link-down reason has a name exactly when it is 0..7, and the names are distinct |
| MihProtocol.LinkTypeNames | mih_protocol.h:486-550 | "VENDOR_SPECIFIC" exactly for values in 0x80..0xFF, "UNKNOWN" exactly for unlisted values outside that range |
| MihProtocol.LinkTypeNamesDistinct | mih_protocol.h:486-550 | every listed link parameter type has a name of its own |
| MihProtocol.LinkEventNames | mih_protocol.h:898-917 | a link event has a name exactly when it is a single bit 2^0..2^6; combined bitmaps are "UNKNOWN" |
| MihProtocol.ValidQosMeans | mih_protocol.h:461-477 | QoS is valid exactly when it is present, some rate is non-zero and the loss rate lies in [0, 1] |
| MagicAdif.PhaseName | app_magic/magic_adif.c:62-67 | a code outside UNKNOWN..LANDING is named "UNKNOWN" |
| MagicAdif.ParsePhase | app_magic/magic_adif.c:75-99 | the phase is always a known code, and a code other than UNKNOWN comes only from its own table name, or from "TAKEOFF" for TAKE OFF, in any case |
| MagicAdif.PhaseRoundTrip | app_magic/magic_adif.c:62-99 | parsing a phase's name gives the phase back for UNKNOWN..LANDING, and UNKNOWN for any other code |
| MagicAdif.ParsePhaseIgnoresCase | app_magic/magic_adif.c:75-99 | two names equal up to case parse to the same phase |
| MagicAdif.PolicyPhaseReadsBack | app_magic/magic_adif.c:112-141 | the policy phase name of every ADIF phase parses, in the configuration's parser, to its mapped phase, and unmapped phases map to GATE |
| MagicAdif.Group | app_magic/magic_adif.c:152-213 | the routing group is one of 0..5 |
| MagicAdif.ShouldReevaluate | app_magic/magic_adif.c:152-213 | routing is re-evaluated iff the two phases lie in different groups |
| MagicAdif.ReevaluateUnlessSameGroup | app_magic/magic_adif.c:152-213 | no re-evaluation iff the phases are equal, both GATE/TAXI, both DESCENT/APPROACH/LANDING, or both outside GATE..LANDING |
| MagicAdif.IgnoredChangesCompose | app_magic/magic_adif.c:152-213 | the decision is symmetric, and two ignored changes in a row compose to an ignored change |
| MagicAdif.SubscribeLength | app_magic/magic_adif.c:229-260 | the subscribe document is 564 bytes plus the digits of the two port values |
| MagicAdif.GenerateSubscribeOutcome | app_magic/magic_adif.c:229-260 | a buffer of at most 566 bytes is refused with -1 (too small or truncated); a large buffer receives the whole document and its length is returned |
| MagicAdif.AttrStart | app_magic/magic_adif.c:274-301 | the value starts after the attribute pattern, inside the document |
| MagicAdif.AttrStartIsFirstAfterTag | app_magic/magic_adif.c:274-301 | the attribute found is the first ATTR=" at or after the first name="TAG" |
| MagicAdif.AttrValueIsQuoted | app_magic/magic_adif.c:274-301 | a value is found iff both patterns and a closing quote exist; it holds no quote, is a prefix of the text after the pattern, is shorter than the buffer, and runs up to the quote unless truncated |
| MagicAdif.AttrValueFound | app_magic/magic_adif.c:274-301 | in a document with the tag and then the attribute, the value between the quotes is extracted |
| MagicAdif.CopyTerminated | app_magic/magic_adif.c:292-298 | the loop copies the value and terminates it with NUL |
| MagicAdif.LocateAttr | app_magic/magic_adif.c:274-298 | the search finds AttrValue's value |
| MagicAdif.ExtractXmlAttr | app_magic/magic_adif.c:274-301 | 0 iff a value is found, which is then copied and NUL-terminated; -1 leaves the buffer untouched |
| MagicAdif.PublishedWow | app_magic/magic_adif.c:312-425 | a WeightOnWheels parameter sets on_ground iff its value reads as 0, with its validity and time; an absent one leaves the WoW record unchanged |
| MagicAdif.PublishedPhaseAndValidity | app_magic/magic_adif.c:312-425 | a FlightPhase parameter sets the parsed phase, an absent one keeps the old record; data_valid iff WoW and phase validity are both NORMAL |
| MagicAdif.EmptyPublishKeeps | app_magic/magic_adif.c:312-425 | a document with no known parameter changes nothing but data_valid and the update time |
| MagicAdif.AircraftRecord.constructor | app_magic/magic_adif.c:611-612 | the new record is all zero |
| MagicAdif.AircraftRecord.ParsePublishXml | app_magic/magic_adif.c:312-425 | returns 0 and the record becomes Published's |
| MagicAdif.AdifClient.constructor | app_magic/magic_adif.c:690-700 | the client starts on ground at GATE with both validities NORMAL |
| MagicAdif.AdifClient.Receive | app_magic/magic_adif.c:607-646 | the state becomes the parse of the document into a zeroed record; a change is reported iff the phase or on_ground differs, and re-evaluation iff it changed and ShouldReevaluate holds |
| MagicAdif.MissingParametersReset | app_magic/magic_adif.c:607-628 | a document without WoW or phase parameters leaves the client in air, phase UNKNOWN, data invalid, because the record starts zeroed |
| TrafficMonitor.Djb2From | magic_traffic_monitor.c:62-71 | the running hash stays a 32-bit value |
| TrafficMonitor.Djb2Append | magic_traffic_monitor.c:66-68 | hashing a concatenation continues from the hash of its first part |
| TrafficMonitor.Djb2Hash | magic_traffic_monitor.c:62-71 | the character loop computes the recursive djb2 hash (times 33 plus the character, modulo 2^32) |
| TrafficMonitor.MarkRange | magic_traffic_monitor.c:81-90 | the mark is 0 exactly for an empty session id and otherwise lies in the mark range |
| TrafficMonitor.FindSession | magic_traffic_monitor.c:751-765 | the first in-use slot holding the id, or none when no in-use slot holds it |
| TrafficMonitor.FindByMark | magic_traffic_monitor.c:767-780 | the first in-use slot carrying the mark, or none when no in-use slot carries it |
| TrafficMonitor.FirstFree | magic_traffic_monitor.c:150-157 | the first slot not in use, or none when every slot is in use |
| TrafficMonitor.InUseUpdate | magic_traffic_monitor.c:523-533 | overwriting one slot changes the in-use count by exactly the change in that slot |
| TrafficMonitor.InitialValid | magic_traffic_monitor.c:384-460 | the initial monitor is consistent: the count equals the in-use slots and the next mark lies in the range |
| TrafficMonitor.ChooseMarkRange | magic_traffic_monitor.c:495-506 | the hashed or stepped mark is 0 or in range, and the next mark wraps back into the range |
| TrafficMonitor.RegisterValid | magic_traffic_monitor.c:462-541 | registering keeps the count equal to the in-use slots and the next mark in range |
| TrafficMonitor.UnregisterValid | magic_traffic_monitor.c:543-575 | unregistering keeps the count equal to the in-use slots |
| TrafficMonitor.EmptyIdGetsMarkZero | magic_traffic_monitor.c:81-90 | an empty session id is stored with mark 0, which the caller reads as failure, yet it occupies a slot |
| TrafficMonitor.RegisterTwice | magic_traffic_monitor.c:477-484 | registering the same session again returns its mark and changes nothing |
| TrafficMonitor.RegisterUnregister | magic_traffic_monitor.c:462-575 | registering a new session and unregistering it returns 0, restores the count and the in-use slots, and the id is no longer found |
| TrafficMonitor.RegisterStored | magic_traffic_monitor.c:486-533 | a new session goes to the first free slot with its mark, and the count grows by one |
| TrafficMonitor.StoredIsFound | magic_traffic_monitor.c:751-765 | the stored session is the one its id finds |
| TrafficMonitor.UnregisterForgets | magic_traffic_monitor.c:569-570 | a freed slot is no longer found by id |
| TrafficMonitor.LongIdIsLost | magic_traffic_monitor.c:525 | an id of 128 characters or more is stored cut to 127, so it is never found again and cannot be unregistered |
| TrafficMonitor.DuplicateMarkHazard | magic_traffic_monitor.c:497-506 | on a hash collision the stepped mark is not checked against the marks in use, so two live sessions can share a mark |
| TrafficMonitor.MonitorContext.constructor | magic_traffic_monitor.c:384-460 | the context starts in the initial state: no sessions, the next mark at the base of the range |
| TrafficMonitor.MonitorContext.FindSessionSlot | magic_traffic_monitor.c:751-765 | the loop returns the slot the search specification gives |
| TrafficMonitor.MonitorContext.FindMarkSlot | magic_traffic_monitor.c:767-780 | the loop returns the slot the mark search specification gives |
| TrafficMonitor.MonitorContext.FreeSlotIndex | magic_traffic_monitor.c:150-157 | the loop returns the first free slot |
| TrafficMonitor.MonitorContext.RegisterSession | magic_traffic_monitor.c:462-541 | the returned mark and the new slots are exactly those of the register specification: 0 when uninitialised, without id or IP, when full or when the firewall rule fails |
| TrafficMonitor.MonitorContext.UnregisterSession | magic_traffic_monitor.c:543-575 | -1 when uninitialised, without an id or for an unknown id; otherwise 0, the slot freed and the count one less |
| BackupPolicyEngine.PhaseStringRoundTrip | _backup_magic_server_20251125_154736/policy_engine.c:16-58 | parsing the name of each of the nine phases PARKED..LANDING gives the phase back; any other value is named "UNKNOWN", which parses to UNKNOWN |
| BackupPolicyEngine.ParsedPhaseIsNamed | _backup_magic_server_20251125_154736/policy_engine.c:16-58 | a string that parses to a known phase is exactly that phase's name |
| BackupPolicyEngine.TrafficClassRoundTrip | _backup_magic_server_20251125_154736/policy_engine.c:31-72 | parsing the name of each named traffic class gives the class back; any other value is named "UNKNOWN", which parses to UNKNOWN |
| BackupPolicyEngine.ParsedClassIsNamed | _backup_magic_server_20251125_154736/policy_engine.c:31-72 | a string that parses to a known class is exactly that class's name |
| BackupPolicyEngine.FindRuleset | _backup_magic_server_20251125_154736/xml_config_parser.c:611-620 | the first ruleset whose flight-phase list contains the phase as a substring; none exactly when no ruleset does |
| BackupPolicyEngine.FindClient | _backup_magic_server_20251125_154736/xml_config_parser.c:601-609 | the first client with that id; none exactly when no client has it |
| BackupPolicyEngine.FindLink | _backup_magic_server_20251125_154736/policy_engine.c:211-218 | the first tracked link with that id; none exactly when no tracked link has it |
| BackupPolicyEngine.PathScore | _backup_magic_server_20251125_154736/policy_engine.c:250-286 | the score is a 32-bit unsigned value, 0 for a down link, and the exact ranking/latency/load sum whenever that sum fits in 32 bits |
| BackupPolicyEngine.SlowLinkOutscoresFastLink | _backup_magic_server_20251125_154736/policy_engine.c:264-270 | with ranking 1, a 10 ms link scores 31990 while an otherwise equal 40 s link wraps to 2^32-8000 and outscores it |
| BackupPolicyEngine.PathScoreIntended | _backup_magic_server_20251125_154736/policy_engine.c:250-286 | the corrected score: the whole sum of the ranking, latency and load terms is floored at 0, and a down link scores 0 |
| BackupPolicyEngine.IntendedPrefersLowerLatency | _backup_magic_server_20251125_154736/policy_engine.c:250-286 | the corrected score never prefers a slower link, and it equals the source's score whenever the source's sum fits in 32 bits |
| BackupPolicyEngine.MatchRule | _backup_magic_server_20251125_154736/policy_engine.c:306-318 | the first rule whose class is the traffic class or "ALL_TRAFFIC"; none exactly when no rule matches |
| BackupPolicyEngine.Evaluate | _backup_magic_server_20251125_154736/policy_engine.c:326-360 | a path keeps the preference's link id and is available iff its link is tracked, up and not PROHIBIT; only an available path scores above 0 |
| BackupPolicyEngine.BestIsFirstHighest | _backup_magic_server_20251125_154736/policy_engine.c:362-372 | the winner is the first path with the strictly highest positive score, and there is none iff every score is 0 |
| BackupPolicyEngine.Capped | _backup_magic_server_20251125_154736/policy_engine.c:326-327 | at most MAX_SELECTED_PATHS preferences, a prefix of the rule's list, all of them when the list is short enough |
| BackupPolicyEngine.RulePrefs | _backup_magic_server_20251125_154736/policy_engine.c:300-324 | there are preferences to judge iff a ruleset is active and one of its rules matches the traffic class |
| BackupPolicyEngine.SelectedPref | _backup_magic_server_20251125_154736/policy_engine.c:326-380 | a selected link is the link of the first best-scoring preference, judged against the tracked links, with a positive score no other path beats |
| BackupPolicyEngine.SelectPicksBest | _backup_magic_server_20251125_154736/policy_engine.c:288-397 | no active ruleset selects nothing; a selection is an available path with the highest positive score; nothing is selected iff every path scores 0 |
| BackupPolicyEngine.DownLinkNotOffered | _backup_magic_server_20251125_154736/policy_engine.c:326-360 | a link that is down or untracked is neither reported available nor selected |
| BackupPolicyEngine.AllDownOffersNothing | _backup_magic_server_20251125_154736/policy_engine.c:288-397 | with every link down nothing is selected and no link is available |
| BackupPolicyEngine.FindPref | _backup_magic_server_20251125_154736/policy_engine.c:480-491 | the first preference naming the link; none exactly when no preference does |
| BackupPolicyEngine.AllowedByFirstMatch | _backup_magic_server_20251125_154736/policy_engine.c:470-494 | when the first matching rule lists the link, availability is decided by that entry alone: allowed iff its action is not PROHIBIT |
| BackupPolicyEngine.SelectedIsAvailable | _backup_magic_server_20251125_154736/policy_engine.c:288-497 | when the matching rule names each link once, the link select_path chooses is one is_path_available reports available |
| BackupPolicyEngine.InitialSelectsNothing | _backup_magic_server_20251125_154736/policy_engine.c:78-121 | init tracks one link per configured datalink (down, bandwidth = max_tx, load 0) and, all links being down, selects nothing and reports no link available |
| BackupPolicyEngine.SetPhaseOnce | _backup_magic_server_20251125_154736/policy_engine.c:138-196 | setting the current phase again changes nothing; a new phase counts one switch and activates the first ruleset listing it, or none iff no ruleset lists it; links and decisions are kept |
| BackupPolicyEngine.UpdateLinkEffect | _backup_magic_server_20251125_154736/policy_engine.c:202-241 | -1 with nothing changed iff the link is unknown; otherwise only that link's up flag, bandwidth and rtt are overwritten; a link reported down is then neither available nor selected |
| BackupPolicyEngine.UpdatedLinkIsDown | _backup_magic_server_20251125_154736/policy_engine.c:202-241 | after a down report the tracked link with that id is down |
| BackupPolicyEngine.SelectInCounts | _backup_magic_server_20251125_154736/policy_engine.c:288-397 | every call counts one decision; a path selection is counted iff the result is 0; links, phase and ruleset are kept; no active ruleset gives -1 |
| BackupPolicyEngine.MapClientClasses | _backup_magic_server_20251125_154736/policy_engine.c:403-429 | a client maps to a named class other than COCKPIT_DATA or ALL_TRAFFIC; a role naming FLIGHT_CRITICAL maps to FLIGHT_CRITICAL |
| BackupPolicyEngine.CockpitRoleIsBulk | _backup_magic_server_20251125_154736/policy_engine.c:414-424 | a "COCKPIT_DATA" role maps to BULK_DATA, because the "DATA" test comes first |
| BackupPolicyEngine.DiameterClassesAreNamed | _backup_magic_server_20251125_154736/policy_engine.c:431-449 | every application id maps to a named class, and ids outside the four listed ones map to ALL_TRAFFIC |
| BackupPolicyEngine.Engine.constructor | _backup_magic_server_20251125_154736/policy_engine.c:78-121 | the new engine's state is the initial context of the configuration |
| BackupPolicyEngine.Engine.SetFlightPhase | _backup_magic_server_20251125_154736/policy_engine.c:138-196 | returns 0 and moves the state as SetPhase prescribes |
| BackupPolicyEngine.Engine.LookupLink | _backup_magic_server_20251125_154736/policy_engine.c:211-218 | the loop finds the first tracked link with the id |
| BackupPolicyEngine.Engine.UpdateLinkState | _backup_magic_server_20251125_154736/policy_engine.c:202-241 | the return code and the new state are those of UpdateLink |
| BackupPolicyEngine.Engine.MatchingRule | _backup_magic_server_20251125_154736/policy_engine.c:306-318 | the rule loop finds MatchRule's rule |
| BackupPolicyEngine.Engine.Judge | _backup_magic_server_20251125_154736/policy_engine.c:326-360 | one preference is judged as Evaluate prescribes |
| BackupPolicyEngine.Engine.JudgeAll | _backup_magic_server_20251125_154736/policy_engine.c:326-372 | the paths are the preferences judged in order and the winner is Best's |
| BackupPolicyEngine.Engine.Decide | _backup_magic_server_20251125_154736/policy_engine.c:300-380 | the decision is Select's over the active ruleset and the tracked links |
| BackupPolicyEngine.Engine.SelectPath | _backup_magic_server_20251125_154736/policy_engine.c:288-397 | the return code, decision and new counters are those of SelectIn |
| BackupPolicyEngine.Engine.PrefFor | _backup_magic_server_20251125_154736/policy_engine.c:480-491 | the loop finds the first preference naming the link |
| BackupPolicyEngine.Engine.IsPathAvailable | _backup_magic_server_20251125_154736/policy_engine.c:455-497 | the answer is PathAvailable's over the active ruleset and the tracked links |
| ClientSessions.Find | magic_client/session_manager.c:108-125 | the first in-use record with the id, or none when no in-use record has it |
| ClientSessions.FirstFree | magic_client/session_manager.c:69-75 | the first record not in use, or none when all ten are in use |
| ClientSessions.InUseUpdate | magic_client/session_manager.c:83-92 | overwriting one record changes the active count by exactly the change in that record |
| ClientSessions.ClearedValid | magic_client/session_manager.c:26-39 | the cleared table is consistent and has no current session |
| ClientSessions.CreateValid | magic_client/session_manager.c:61-102 | creating keeps the active count equal to the records in use and free records zeroed |
| ClientSessions.DeleteValid | magic_client/session_manager.c:185-212 | deleting keeps the active count equal to the records in use and free records zeroed |
| ClientSessions.UpdatesValid | magic_client/session_manager.c:131-179 | updating the state or recording the link keeps the table consistent |
| ClientSessions.CreateThenFind | magic_client/session_manager.c:61-102 | a created session is found under its id in the Authenticating state and becomes the current session (none for an empty id) |
| ClientSessions.CreateThenDelete | magic_client/session_manager.c:185-212 | deleting a session just created returns 0 and restores the table, with the current session cleared |
| ClientSessions.LinkEstablishedMeans | magic_client/session_manager.c:150-179 | for a known session: 0, the record becomes Active with the granted rates and bearer, the link is kept when none is given, and every other record is unchanged |
| ClientSessions.FindDlm | magic_client/session_manager.c:369-375 | the first in-use record with the name among the first count records, or none |
| ClientSessions.FirstFreeDlm | magic_client/session_manager.c:378-392 | the first DLM record not in use, or none when all eight are in use |
| ClientSessions.FindOrCreateValid | magic_client/session_manager.c:362-398 | find-or-create keeps the used DLM records exactly the first count ones |
| ClientSessions.FirstFreeIsCount | magic_client/session_manager.c:378-392 | the free record found is the one at index count, or none when the table is full |
| ClientSessions.FindOrCreateTwice | magic_client/session_manager.c:362-398 | looking the same name up again returns the same record and changes nothing |
| ClientSessions.UpdateAvailableMeans | magic_client/session_manager.c:400-428 | the record takes the new availability; a new record never reports a change; an existing one reports a change exactly when the value differs and was not unknown (2) |
| ClientSessions.SessionManager.constructor | magic_client/session_manager.c:26-39 | the manager starts with the cleared table |
| ClientSessions.SessionManager.FindSlot | magic_client/session_manager.c:108-125 | the loop returns the record the search specification gives |
| ClientSessions.SessionManager.CreateSession | magic_client/session_manager.c:61-102 | the record and the new table are those of the create specification; none without an id or a free record |
| ClientSessions.SessionManager.SetState | magic_client/session_manager.c:131-143 | -1 for an unknown id; otherwise 0 and the state and activity time updated as the specification says |
| ClientSessions.SessionManager.EstablishLink | magic_client/session_manager.c:150-179 | the result and the new table are those of the link-established specification |
| ClientSessions.SessionManager.DeleteSession | magic_client/session_manager.c:185-212 | -1 without an id or for an unknown one; otherwise 0, the record zeroed, the count one less, and the current session cleared if it was this one |
| ClientSessions.SessionManager.MakeCurrent | magic_client/session_manager.c:286-301 | -1 without an id or for an unknown one; otherwise 0 and the id becomes current |
| ClientSessions.DlmStatusManager.constructor | magic_client/session_manager.c:354-360 | the DLM status table starts with eight zeroed records and count 0 |
| ClientSessions.DlmStatusManager.FindOrCreateRecord | magic_client/session_manager.c:362-398 | the record and the new table are those of the find-or-create specification; none for an empty name or a full table |
| ClientSessions.DlmStatusManager.UpdateAvailability | magic_client/session_manager.c:400-428 | the change flag and the new table are those of the update specification; false for an empty name or a full table |
| ClientCommands.LevelNames | magic_client/magic_commands.c:67-93 | a level has a name other than "Unknown" exactly when it is valid (0-3, 6, 7), and distinct valid levels have distinct names |
| ClientCommands.LaterAvpWins | magic_client/magic_commands.c:103-212 | reading the communication parameters: the last link id (cut to 63 characters) and the last granted bandwidth win, and the state and registration are untouched |
| ClientCommands.IgnoredAnswers | magic_client/magic_commands.c:228-466 | an answer without a Result-Code, a failed answer other than MCAA, or an answer to another command leaves the client as it was |
| ClientCommands.McarRefused | magic_client/magic_commands.c:454-458 | a refused MCAA returns the client to IDLE and unregistered, and nothing else changes |
| ClientCommands.McaaOutcome | magic_client/magic_commands.c:296-346 | a successful MCAA registers the client, ACTIVE exactly when a link (child 10023 or 10004) and a grant (child 10051) came back and AUTHENTICATED otherwise, with the granted level taken from the answer and a downgrade exactly when it is below the requested level |
| ClientCommands.AvpsKeepLevels | magic_client/magic_commands.c:103-212 | the communication parameters never touch the subscribe levels |
| ClientCommands.MccaOutcome | magic_client/magic_commands.c:347-391 | a successful MCCA: ACTIVE with a link and a grant; a zero grant drops an ACTIVE client to AUTHENTICATED with no link or gateway, or queues a client that was not ACTIVE when the top-level vendor AVP 10030 the callback reads as status is absent or 0; registration unchanged |
| ClientCommands.StaClears | magic_client/magic_commands.c:392-405 | a successful STA returns to IDLE, unregistered, with no link, gateway or grant |
| ClientCommands.ReportOnlyGrants | magic_client/magic_commands.c:2815-2858 | the children of the report group (Granted-Bandwidth is child 10051) change the granted bandwidth and nothing else |
| ClientCommands.MntrOutcome | magic_client/magic_commands.c:2774-2812 | for a handler switching on given status and report codes: without an AVP under the status code carrying a link-releasing value (2007, 1024, 1025) the state, link and bearer are kept; when the last AVP of the message is such a releasing status code the client is AUTHENTICATED with no link and bearer 0 |
| ClientCommands.UnreadMntrIgnored | magic_client/magic_commands.c:2772-2779 | an MNTR none of whose top-level AVPs carries the code the handler switches on leaves the client view unchanged |
| ClientCommands.ServerMntr | app_magic/magic_cic_push.c:236-260 | the server's MNTR carries Communication-Report-Parameters under 20003 first, then MAGIC-Status-Code under 10053 exactly when the status is not 0 |
| ClientCommands.LinkErrorMntrKeepsLink | magic_client/magic_commands.c:2774-2785 | the handler as written, switching on 10009 and 10050, leaves an ACTIVE client unchanged, still on its link, after the server's LINK_ERROR MNTR |
| ClientCommands.LinkErrorMntrReleases | magic_client/magic_commands.c:2774-2785 | a handler switching on the dictionary's 10053 and 20003 releases the link on the same MNTR, leaving the client AUTHENTICATED with no link, bearer 0 and the reported grant |
| ClientCommands.FindSubscribe | magic_client/magic_commands.c:986-1002 | the first "subscribe" argument at or after the position, or none when there is none |
| ClientCommands.McarLevelsValid | magic_client/magic_commands.c:946-1015 | a subscribing MCAR that goes ahead has a valid level; "subscribe" alone requests level 3; with a level argument it goes ahead exactly when the level is valid |
| ClientCommands.McarRefusesReservedLevel | magic_client/magic_commands.c:950-960 | the reserved level 4 is refused and the requested level stays 0 |
| ClientCommands.MccrRules | magic_client/magic_commands.c:1262-1370 | no request unless registered; start/create opens a link, or modifies it when ACTIVE, requesting twice the required bandwidth by default; modify goes ahead only when ACTIVE; stop/release zeroes every bandwidth |
| ClientCommands.CommandClient.constructor | magic_client/magic_commands.c:43-53 | the client starts IDLE with the given configuration |
| ClientCommands.CommandClient.ReadCommParams | magic_client/magic_commands.c:103-212 | the client state after the loop over the parameters is the one the specification gives; the configuration is untouched |
| ClientCommands.CommandClient.OnAnswer | magic_client/magic_commands.c:228-466 | the client state after an answer is the one the answer specification gives |
| ClientCommands.CommandClient.OnNotification | magic_client/magic_commands.c:2737-2879 | the client state after an MNTR is the one the notification specification gives for the codes the handler switches on, 10009 for the status and 10050 for the report |
| ClientCommands.CommandClient.ReadReport | magic_client/magic_commands.c:2815-2858 | the client state after the report loop is the one the report specification gives |
| ClientCommands.CommandClient.PrepareMcar | magic_client/magic_commands.c:924-1016 | 0 exactly when the arguments are accepted; the configuration and subscribe levels become those the MCAR specification gives, with each kbps argument read by `strtoull` (saturating at 2^64 - 1) and multiplied by 1000 modulo 2^64 |
| ClientCommands.CommandClient.PrepareMccr | magic_client/magic_commands.c:1250-1380 | 0 exactly when a scenario is chosen; the scenario and configuration are those the MCCR specification gives, each kbps argument read by `strtoull` (saturating at 2^64 - 1) and multiplied by 1000 modulo 2^64, and the client state is untouched |
| ClientCommands.KbpsOfDigits | magic_client/magic_commands.c:976-981 | a decimal kbps argument below 2^64 gives its value times 1000 modulo 2^64; one of 2^64 or more saturates and gives 2^64 - 1000 |
| DlmPrototype.HexNibble | DLM_SATCOM/dlm_satcom_prototype.c:436-441 | a value 0..15 exactly for a hex digit of either case, -1 for anything else |
| DlmPrototype.HexNibbleMeans | DLM_SATCOM/dlm_satcom_prototype.c:436-441 | printing a nibble as a lower- or upper-case hex digit and reading it gives it back |
| DlmPrototype.DropToken | DLM_SATCOM/dlm_satcom_prototype.c:466-469 | skipping a token stops at white space or the end and always makes progress on a non-blank |
| DlmPrototype.ScanWordsBounds | DLM_SATCOM/dlm_satcom_prototype.c:445-473 | the scan only appends, two bytes at a time, and never past the capacity |
| DlmPrototype.WordReadsBack | DLM_SATCOM/dlm_satcom_prototype.c:455-464 | a four-digit word as tcpdump prints it reads back as its two bytes |
| DlmPrototype.ScanHexWords | DLM_SATCOM/dlm_satcom_prototype.c:445-473 | scanning printed words appends exactly their bytes while they fit |
| DlmPrototype.DumpLineReadsBack | DLM_SATCOM/dlm_satcom_prototype.c:445-473 | a dump line "offset:" followed by printed words reads back as its bytes |
| DlmPrototype.AsciiColumnIsRead | DLM_SATCOM/dlm_satcom_prototype.c:445-473 | a four-character ASCII column that happens to look like a hex word is read as two more bytes |
| DlmPrototype.AppendHexAreaIgnoresAscii | DLM_SATCOM/dlm_satcom_prototype.c:445-473 | cutting the line at the gap before the ASCII column reads back exactly the printed bytes |
| DlmPrototype.CutAfterWords | DLM_SATCOM/dlm_satcom_prototype.c:445-473 | cutting at the gap keeps exactly the printed words |
| DlmPrototype.ScanTrimmedWords | DLM_SATCOM/dlm_satcom_prototype.c:445-473 | the printed words without the leading blank scan to their bytes |
| DlmPrototype.AppendHexWordsFromLine | DLM_SATCOM/dlm_satcom_prototype.c:445-473 | the in-place append stores exactly the bytes the scan defines after the colon, within the buffer, and leaves the rest of the buffer alone |
| DlmPrototype.ScanInto | DLM_SATCOM/dlm_satcom_prototype.c:452-472 | the scanning loop stores exactly the bytes the scan defines |
| DlmPrototype.GuessIpv4Offset | DLM_SATCOM/dlm_satcom_prototype.c:475-483 | 18 exactly for an 802.1Q frame carrying IPv4, 14 exactly for an Ethernet IPv4 frame otherwise, else 0 |
| DlmPrototype.UdpPayload | DLM_SATCOM/dlm_satcom_prototype.c:530-551 | the payload read is never longer than the capture |
| DlmPrototype.UdpFrameReadsBack | DLM_SATCOM/dlm_satcom_prototype.c:508-557 | the payload of a well-formed Ethernet/IPv4/UDP frame is exactly what is read back |
| DlmPrototype.TruncatedCaptureIsCut | DLM_SATCOM/dlm_satcom_prototype.c:540-551 | the payload read is the captured bytes after the UDP header, never more than the UDP length minus 8 |
| DlmPrototype.OnePacket | DLM_SATCOM/dlm_satcom_prototype.c:508-557 | a tcpdump header line followed by the dump of one UDP frame yields exactly that frame's payload |
| DlmPrototype.CollectOneLine | DLM_SATCOM/dlm_satcom_prototype.c:521-528 | one "0x" line after the header assembles into its bytes |
| DlmPrototype.FirstDumpLine | DLM_SATCOM/dlm_satcom_prototype.c:521-528 | a dump line has no leading blank, starts with "0x" and reads back as its bytes |
| DlmPrototype.ParseUdpPayloads | DLM_SATCOM/dlm_satcom_prototype.c:508-557 | the loop over the lines yields the non-empty payloads the line-by-line definition gives |
| DlmPrototype.PayloadsStep | DLM_SATCOM/dlm_satcom_prototype.c:511-556 | each header line contributes its packet's payload when it is non-empty, then the search goes on at the next line |
| DlmPrototype.CollectPacket | DLM_SATCOM/dlm_satcom_prototype.c:521-528 | the inner loop assembles the following "0x" lines into the packet buffer as the definition says |
| DlmPrototype.HandleLinkResourceMeans | DLM_SATCOM/dlm_satcom_prototype.c:323-368 | a REQUEST allocates the requested QoS or the defaults (1000 kbps forward), SUCCESS with the new id exactly when allocation succeeds, else INSUFFICIENT_RESOURCES; a RELEASE without an id is INVALID_BEARER; the bookkeeping stays consistent |
| DlmPrototype.DefaultReturnRates | DLM_CELLULAR/dlm_cellular_prototype.c:311-351 | on a 300 kbps return link a request without QoS succeeds with the SATCOM default return rate (200 kbps) and is refused INSUFFICIENT_RESOURCES with the cellular default (500 kbps) |
| DlmPrototype.HandleResource | DLM_SATCOM/dlm_satcom_prototype.c:323-368 | the handler over the bearer map produces exactly the confirm and bearer state the specification of the handler gives |
| DlmPrototype.FrameReadsBack | DLM_SATCOM/dlm_satcom_prototype.c:654-668 | a frame is built exactly when the payload fits in 2048 - 2 bytes; it is routed by the MIHF under its type and carries the payload after the 2-byte type |
| DlmPrototype.SendResultMeans | DLM_SATCOM/dlm_satcom_prototype.c:654-668 | sending returns 0 exactly when the frame fits and the send did not fail, or there is no socket to send on |
| MihfSimulator.PushAllKeeps | MIHF_SIMULATOR/mihf_simulator.c:70-81 | pushing texts one by one keeps exactly the newest 63 of them, each cut to 511 characters |
| MihfSimulator.RingAt | MIHF_SIMULATOR/mihf_simulator.c:83-90 | the i-th queued text sits i slots after the head, modulo 64 |
| MihfSimulator.RingPushed | MIHF_SIMULATOR/mihf_simulator.c:70-81 | writing at the tail and advancing the head when the ring is full is the push of the cut text onto the contents |
| MihfSimulator.PopHead | MIHF_SIMULATOR/mihf_simulator.c:86-88 | taking the head shortens the ring by exactly one |
| MihfSimulator.MessageQueue.constructor | MIHF_SIMULATOR/mihf_simulator.c:66-68 | the queue starts empty |
| MihfSimulator.MessageQueue.Enqueue | MIHF_SIMULATOR/mihf_simulator.c:70-81 | the new contents are the old ones with the cut text appended, dropping the oldest when 63 are already queued |
| MihfSimulator.MessageQueue.Flush | MIHF_SIMULATOR/mihf_simulator.c:83-90 | the texts come out oldest first, all of them, and the queue ends empty |
| MihfSimulator.ProcessMessage | MIHF_SIMULATOR/mihf_simulator.c:316-416 | a message shorter than 2 bytes is refused; while a command is being typed its summary is queued and nothing is dispatched; otherwise it is dispatched by its 16-bit type and the queue is untouched |
| MihfSimulator.RouteMeans | MIHF_SIMULATOR/mihf_simulator.c:316-335 | TooShort exactly when fewer than 2 bytes; the type read is a 16-bit value, little-endian |
| MihfSimulator.RunEnd | MIHF_SIMULATOR/mihf_simulator.c:574-581 | the end of the digit run: every character before it is a digit and the one at it is not, or the line ends |
| MihfSimulator.NumberRun | MIHF_SIMULATOR/mihf_simulator.c:569-584 | the collected number is all digits and at most 15 long |
| MihfSimulator.ParseIndex | MIHF_SIMULATOR/mihf_simulator.c:569-585 | the scanning loop yields exactly the DLM index the first digit run after the command letter names, minus one, or -1 without digits |
| MihfSimulator.RunFound | MIHF_SIMULATOR/mihf_simulator.c:574-581 | when the loop stops, at the line end, at 15 digits or at a non-digit after the run, the buffer holds the first run |
| MihfSimulator.IndexExamples | MIHF_SIMULATOR/mihf_simulator.c:569-585 | "c 2", "c<2>" and "c2" all select DLM 2 (index 1); "c" and "c x" select nothing |
| MihfSimulator.SmallIndexSelects | MIHF_SIMULATOR/mihf_simulator.c:569-620 | a command letter followed by a number k from 1 to 3 selects DLM k |
| AdifSimulator.PhaseNamesAgree | adif_simulator/adif_simulator.c:152-158 | the simulator names every phase as the client does, so the client parses a published phase back to itself for GATE..LANDING and UNKNOWN otherwise |
| AdifSimulator.TableNameReads | adif_simulator/adif_simulator.c:160-174 | any spelling of a table name, in any case, reads as its index |
| AdifSimulator.StringToPhase | adif_simulator/adif_simulator.c:160-174 | the lookup loop agrees with the client's parser: table names and "TAKEOFF" in any case, UNKNOWN otherwise |
| AdifSimulator.ParseSubscribe | adif_simulator/adif_simulator.c:234-257 | the values stay within uint16/uint32, and a missing keyword leaves its output at the caller's value |
| AdifSimulator.KeyValueAt | adif_simulator/adif_simulator.c:234-257 | the number after the first value=" following the keyword is what is read |
| AdifSimulator.PortFound | adif_simulator/adif_simulator.c:234-257 | the client's subscribe document yields its publish port |
| AdifSimulator.PeriodFound | adif_simulator/adif_simulator.c:234-257 | the client's subscribe document yields its refresh period |
| AdifSimulator.SubscribeRoundTrip | adif_simulator/adif_simulator.c:234-257 | reading the document the client writes gives back the port and period it was written with, whatever the defaults |
| AdifSimulator.WowRoundTrip | adif_simulator/adif_simulator.c:180-213 | the client's parse of a published document restores the simulator's on_ground flag and validity |
| AdifSimulator.WowTextReads | adif_simulator/adif_simulator.c:200 | the published WoW value reads as 0 on the ground and 1 in the air |
| AdifSimulator.IntTextReads | adif_simulator/adif_simulator.c:180-213 | atoi reads back every %d rendering |
| AdifSimulator.NoQuoteInInt | adif_simulator/adif_simulator.c:180-213 | a %d rendering holds no quote, so the attribute extractor reads it whole |
| AdifSimulator.LineValueRead | adif_simulator/adif_simulator.c:180-213 | the value of a parameter line is what the client extracts for that tag |
| AdifSimulator.LineValidityRead | adif_simulator/adif_simulator.c:180-213 | the validity of a parameter line is what the client extracts for that tag |
| AdifSimulator.RefreshOrDefault | adif_simulator/adif_simulator.c:286-288 | a refresh period of 0 becomes the default; any other is kept |
| AdifSimulator.Simulator.constructor | adif_simulator/adif_simulator.c:761-776 | the state is the default one with the `%.6f`/`%.1f` renderings the simulator sends (on ground, latitude "33.942500", longitude "-118.408100", ground speed "0.0", GATE, tail N12345, validity 1) and no client is registered |
| AdifSimulator.Simulator.AddClient | adif_simulator/adif_simulator.c:259-297 | -1 with nothing changed when 10 clients are registered; otherwise the next slot records the client, with period 0 replaced by 1000, and the count grows by one |
| AdifSimulator.Simulator.HandleRequest | adif_simulator/adif_simulator.c:377-399 | a request naming subscribeAvionicParameters registers its sender with the parsed port and period (defaults 64001/1000); any other request changes nothing |
| AdifSimulator.Simulator.CmdWow | adif_simulator/adif_simulator.c:467-480 | with an argument, on_ground becomes atoi(arg) != 0 and nothing else changes; without one nothing changes |
| AdifSimulator.Simulator.CmdPhase | adif_simulator/adif_simulator.c:482-500 | a phase that parses to a known phase is set; an unknown one changes nothing |
| AdifSimulator.Simulator.CmdTail | adif_simulator/adif_simulator.c:545-558 | the tail number becomes the first 15 characters of the argument; without one nothing changes |
| AdifSimulator.WowCommandReachesClient | adif_simulator/adif_simulator.c:467-480 | after "wow x" the client reads on_ground iff atoi(x) != 0 |

## Left out

- Crypto: RSA key generation, signing, random serial numbers and the hashing behind the key identifiers. Keys are opaque `KeyPair` values, a signature names the signer's public key, and serials and key ids come from a counter. Only the shape of each certificate is modelled.
- File and process I/O: directory creation, file writes, `chmod` and `shutil.copy2` become entries of an effect log. Reading files becomes an input text. minidom/ElementTree serialization, argv parsing and CDR file save, load and directory scanning are not modelled.
- Diameter plumbing: the freeDiameter dictionaries, AVP construction, browsing and extraction, and `fd_msg_send`. They wrap a library that is not part of this model. Whether a send succeeds is a parameter where the code branches on it.
- Sockets, threads, select loops and signals: the LMI, datagram and UDP listener threads, the heartbeat thread, the ADIF client connection, the DLM and simulator main loops, and `mih_transport`. Only the table updates and decisions these loops drive are modelled.
- Concurrency: every `pthread_mutex`. The model is single-threaded, because each modelled operation runs under its table's lock.
- Shell and kernel interfaces: `system`/`popen` calls to iptables, nft, ip rule, ipset, tcpdump and conntrack, Netlink queries and `/proc` writes. Each command's outcome is a boolean parameter (for instance `routeOk`, `createOk`, the `failed` set of `switch_tft_link`).
- Floating point: the CommReqParams bandwidths and the float zero test in intent routing are whole kbps. The DLMConfig float bandwidth in `calculate_link_score` is whole kbps. The double coverage checks become a set of DLM names in coverage. `utilization_percent`, RSSI simulation, the ADIF latitude/longitude `atof`, the loss rate in the older engine's path score and the DLM "factor" key are not modelled.
- Wall clock and randomness: `time(NULL)`, `rand` and UUID generation are parameters.
- XML and configuration loaders: the libxml2 loaders of `magic_config.c` and libconfig are not modelled. The parsed configuration is a value, and only the string-to-value conversions are modelled.
- Superseded trees and headers: the backup server tree other than `policy_engine.c`, and header-only type declarations. The headers supply only types and bounds.
- Logging, console printing, pretty tables and the status and decision printers of the older engine, together with its `policy_engine_destroy` and its custom-evaluator hook.
- Session helpers outside the modelled core are not modelled. These are `magic_session_count_by_client`, `magic_session_state_name`, `magic_session_set_state`, `magic_session_find_subscribed`, `magic_session_get_active_sessions`, `magic_client_context_find`, `magic_client_get_sessions`, `magic_session_clear_tfts` and `magic_session_cleanup`. They are getters, loggers or whole-table resets.
- Traffic monitor statistics: `get_session_stats` and its cache time-to-live, the conntrack queries, the firewall rule commands, and the print and cleanup routines are not modelled. They read kernel state.
- MagicDataplane.UnregisterLink: `delete_route_table` clears `configured` on the removed slot, and the swap-remove that follows overwrites that slot. The dead store is not modelled.
- Certificates.ParseIpv4: IPv6 literals, which `ipaddress.ip_address` accepts, are refused. So Certificates.SanBadIpFails and CertGenerator.BadSanIpFailsRun hold for text that is not an IPv4 literal, not for every text Python refuses.
- Certificates.ValidOid: checks the arc syntax (at least two decimal arcs, the first at most 2, the second below 40 under a first arc of 0 or 1). It does not check the encoded-length limits of `x509.ObjectIdentifier`, nor arcs written with a leading '+'.
- CertGenerator.IssueRoot: a negative `ValidityDays` is refused. The `timedelta`/`datetime` overflow that a huge `ValidityDays` raises in Python is not modelled, because the dates are unbounded integers. The same holds for CertGenerator.IssueLeaf.
- Text.Strip: strips only ' ', '\t' to '\r' and '\x1c' to '\x1f'. It does not strip '\x85', '\xa0' or the other Unicode whitespace that Python's `str.strip` removes.
- Text.ParseInt: does not accept the underscores or the non-ASCII decimal digits that Python's `int()` accepts.
- CString.Atoi: is `strtol` without its clamp to LONG_MIN/LONG_MAX and without the truncation to a 32-bit `int`. For `wow 4294967296` the model reads 4294967296 and sets the aircraft on ground, where `atoi` gives 0 on a 64-bit `long` and the simulator sets it airborne. Callers whose arguments stay within 32 bits are unaffected.
- CertArtifacts.ClientFdUsesOwnCertificate: the certificate, key and CA paths are `Join(outDir, …)` without `os.path.abspath`. With a relative OutputDirectory the generated file holds the absolute path under the working directory, which the model does not know. CertArtifacts.ClientFdConf is stated the same way.
- CertArtifacts.ServerFdShape: the profile directory, access-list path and extension paths are `Join(…)` without `os.path.abspath`, so for a relative OutputDirectory or root they are the relative paths, not the absolute ones the file holds. CertArtifacts.ServerFdConf is stated the same way.
- MihProtocol.ValidQos: the loss rate is a real. So the NaN that passes the C comparisons of `validate_qos_params` cannot be represented.

## Findings

| source | as written | input that shows it | evidently intended | confidence | as-written member | corrected member |
|---|---|---|---|---|---|---|
| app_magic/dlm_common.h:319-320 | the admission test adds current usage and the request in `uint32_t`, so the sum can wrap below the maximum | maximum 1000, usage 1, request 2^32 - 1: the sum wraps to 0 and the request is admitted; releasing the first bearer then leaves usage 2^32 - 1 | refuse a request whose true sum exceeds the maximum | not executed | DlmCommon.UsageWrapHazard | DlmCommon.AllocateCheckedKeepsCapacity |
| app_magic/magic_cic_push.c:68-76 | the change percentage subtracts in unsigned arithmetic, so any drop wraps to a huge change | last 1000 kbit/s, new 950 kbit/s: a 5% drop is computed as 4294962% and the MNTR is sent | hold back any move, up or down, of less than 10% of the last notified rate | not executed | MagicCicPush.FivePercentDropSent | MagicCicPush.ThresholdMeansTenPercent |
| app_magic/magic_session.c:343-356 | `magic_session_cleanup_timeout` frees timed-out slots but never decrements `session_count` | one session idle longer than the timeout: after the sweep the count exceeds the occupied slots by one | decrement `session_count` once per freed slot | not executed | MagicSession.CleanupTimeoutLeavesCount | MagicSession.CleanupTimeoutCountedValid |
| app_magic/magic_dataplane.c:918-931 | a new link's table id is `base + num_links`, and unregistering swap-removes the last link into the freed slot (lines 1282-1286) | register SATCOM (100) and WIFI (101), unregister SATCOM, register CELLULAR: it gets 101, which WIFI still holds | give the new link a table id no live link holds | not executed | MagicDataplane.TableIdReused | MagicDataplane.RegisterFreshKeepsTablesDistinct |
| app_magic/magic_policy.c:596-745 | a link over its preference's latency limit is scored -999999 but not skipped, and the +500 preferred-DLM bonus is added afterwards | one preferred, idle, active DLM whose latency exceeds the limit: it scores -999499, beats the initial best -999999 and is selected | never select a link over its latency limit | not executed | MagicPolicy.LatencyRejectedLinkSelected | MagicPolicy.PickCheckedRespectsLatency |
| app_magic/magic_cic.c:1457-1469 | the gate compares the altitude with the minimum -1 that the parser uses for "no lower bound" | whitelist "-5000" (up to 5000 ft) and an aircraft at -11 ft: the altitude is refused | a negative bound on either side is no bound | not executed | MagicCic.NoLowerBoundRefusesBelowZero | MagicCic.InRangeIntendedOfTokens |
| _backup_magic_server_20251125_154736/policy_engine.c:250-286 | the path score is accumulated in `uint32_t`, and large round-trip times drive the sum negative, so it wraps | an up link with rtt 40000 ms scores 2^32 - 8000, far above the same link at 10 ms (31990) | a longer round trip never scores higher; the score is floored at 0 | not executed | BackupPolicyEngine.SlowLinkOutscoresFastLink | BackupPolicyEngine.IntendedPrefersLowerLatency |
| magic_client/magic_commands.c:2774-2815 | the MNTR handler switches on 10009 for MAGIC-Status-Code and 10050 for Communication-Report-Parameters; the dictionary gives those codes to DLM-Allocated-Return-Bandwidth and CDR-Started, and the server sends 10053 and 20003 (app_magic/magic_cic_push.c:236-260) | an ACTIVE client on link "SATCOM" receives the server's MNTR with MAGIC-Status-Code 2007 (LINK_ERROR): it stays ACTIVE on "SATCOM" with its old grant | switch on the dictionary's 10053 and 20003, so that a LINK_ERROR releases the link | not executed | ClientCommands.LinkErrorMntrKeepsLink | ClientCommands.LinkErrorMntrReleases |
| DLM_SATCOM/dlm_satcom_prototype.c:443-473 | the comment says only the four-digit hex words are read, but the scan runs on to the end of the line, so a printable column that starts with four hex characters is read as two more bytes | a line whose words print the bytes "abcd" as `6162 6364  abcd`: six bytes come back instead of four | stop at the gap before the printable column | not executed | DlmPrototype.AsciiColumnIsRead | DlmPrototype.AppendHexAreaIgnoresAscii |

The model of each component follows the code as written. The corrected
definitions (`DlmCommon.AllocateChecked`, `MagicCicPush.ShouldSendIntended`,
`MagicSession.CleanupTimeoutCounted`, `MagicDataplane.RegisterFresh`,
`MagicPolicy.PickChecked`, `MagicCic.InRangeIntended`,
`BackupPolicyEngine.PathScoreIntended`, `ClientCommands.NotifyStep` under
`DictionaryCodes`, `DlmPrototype.AppendHexArea`) stand beside them. Each comes with
the lemmas that prove the intended property and that show where it agrees
with the code.
