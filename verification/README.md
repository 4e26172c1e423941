# SNIrelay, verified

A Dafny model of the parts of SNIrelay, an L4 proxy that routes TLS connections by server
name, whose correctness is not visible from any single function: the quota counters shared
by concurrent sessions, the incremental TLS parser and the bytes it replays, the SOCKS5
handshake, the dnsmasq configuration files the panel rewrites, the health monitor and the
upstream registry, and the aggregates that are meant to agree with what they aggregate.

`dafny verify dfyconfig.toml` checks everything.

## How it is organised

| module | what it models |
|---|---|
| `DomainQuota` | one domain's daily counters under any interleaving of sessions and savers; every atomic access is an action |
| `DomainQuotaRuns`, `DomainQuotaOneSlot`, `DomainQuotaDays` | exactly when the byte bound and the daily connection limit hold under concurrency |
| `DomainLimiter`, `DomainUsage` | the limiter run serially: key lookup, day rollover, state file, restarts, and every verdict from the history |
| `Sni`, `SniGrammar` | the ClientHello parser as cursor loops, and the grammar it accepts |
| `TlsExtract` | the read loop around the parser, for any chunking of the stream |
| `SniVerdicts` | every other verdict of the parser and refusal of the read loop, as conditions on octets |
| `ProbeHello` | the ClientHello the health probe builds |
| `Socks5` | the SOCKS5 client handshake, with the server's side as a reference decoder |
| `DnsmasqStore`, `DnsmasqTheorems`, `DnsmasqMeaning` | the dnsmasq conf files: load, save, strip, render |
| `UpstreamMonitor`, `MonitorTargets` | the hysteresis automaton, its alerts, and the targets of a round |
| `UpstreamRegistry`, `UpstreamConfig` | profile routing, failover order, override and normalisation |
| `Traffic`, `TrafficAggregator` | the two traffic tables and the batching loop in front of them |
| `SessionMetrics` | the session gauges under any interleaving |
| `QueryLog`, `QueryLogIngest` | joining DNS answers to queries, and tailing the log |
| `Bytes`, `Text`, `ConfText`, `Order`, `Sorting`, `Sums`, `Slices`, `Proxies`, `Wrappers` | shared notions |

Code that updates state is a class or a method with loops; each is proved equal to a
specification function or relation on values, and the theorems are about that. Where
sessions run concurrently the model is a transition system and a run is any sequence of
actions. Types of outside knowledge are parameters: `text` decodes and lowercases a host
name if it is valid UTF-8, `canon` gives the canonical spelling of an IP address if it is
one, `parse` recognises a log line. The clock, the chunking of reads, the success of
writes and commits, and the iteration order of hash maps are arbitrary.

## Where the code differs from what one might expect

- Under concurrency the daily connection limit holds if and only if nobody can be admitted,
  or there is at most one connection slot and no state file
  (`DomainQuotaDays.DailyLimitExactly`). The service always has a state file, so there the
  limit is never certain. It fails in two ways. Between the switch of the day and the
  zeroing of the counter, sessions are admitted and then forgotten (`StalledZeroing`, up to
  twice the limit on one day). And whoever read the clock before midnight switches the day
  back, so that the next check zeroes the counter of the new day: another session
  (`SwitchedBack`), or with a single slot the task that flushes the counters (`SavedBack`).
  The day meant is the one an admission's check read from the clock; by the day at which
  admissions are made, one slot alone is enough to exceed the limit
  (`ClockDayLimitExactly`). Per zeroing the limit always holds.
- The byte bound of a day holds if and only if the limit is used up at the start, there are
  no slots, or the ceiling fits 64 bits. Otherwise the counter can be driven round, and
  nothing bounds the bytes of the day (`DomainQuotaRuns.NoBoundAtAll`).
- The handshake length inside a ClientHello is read and ignored, and a ClientHello split
  over several records is not reassembled; the grammar says both.
- A probe host of more than 65475 bytes wraps the record length (`ProbeHello.RoundTrip`
  is an equivalence), and SOCKS5 credentials over 255 bytes are sent with a truncated
  length (`Socks5.ServerUnderstands` is an equivalence).
- A save of the dnsmasq rules loads back exactly when no pattern contains a newline, the
  files of the rules there are lie in the directory, and, if there are relay rules, the two
  managed files are distinct and the address is neither blank nor has a slash
  (`DnsmasqMeaning.LoadsWhatWasAsked` is an equivalence). The second banner line is not removed
  by the next save, so each save adds a copy, and a newline in a pattern injects lines that
  later saves keep as foreign (`DnsmasqTheorems.ForeignLinesSurvive` lists both). Saving
  again leaves the directives of a file alone exactly when none is injected into it
  (`DnsmasqTheorems.RepeatedSave`).
- The query log splits a line in two when a tick falls inside it
  (`QueryLogIngest.CutBetweenLines` is an equivalence). Answers are joined to the right
  queries exactly when the lookup keys are unambiguous: no query's full key is an answered
  domain, and the full key of an answer is not a queried domain, nor the full key of a
  query unless all queries for that domain have it (`QueryLog.CorrelatesExactly`). Domains
  without a bar and non-empty clients are enough.

## Model

| member | source | states |
|---|---|---|
| DomainQuota.BoundedOvershoot | src/domain_limiter.rs:344-373 | On one day, in every interleaving, restored usage plus all bytes spliced stay within max(limit, restored) + 2 × 64 KiB × slots, if the limit is used up at the start, there are no slots, or that sum fits 64 bits |
| DomainQuotaRuns.OvershootExactly | src/domain_limiter.rs:301-361 | For a domain with a bandwidth limit only, that bound holds in every run of a day if and only if that condition does |
| DomainQuotaRuns.NoBoundAtAll | src/domain_limiter.rs:358-361 | Where the condition fails, for every number there is a run of one day that splices at least that many bytes |
| DomainQuotaRuns.Lap | src/service.rs:871-938 | One such round: all slots open below the limit, fill the counter to it, overshoot until it wraps to zero, and leave |
| DomainQuota.BytesBetweenZeroings | src/domain_limiter.rs:70-83 | Whatever the clock, the sessions and the savers do, the byte counter is exactly the bytes accounted since it was last zeroed, under the same ceiling |
| DomainQuota.AdmissionSafety | src/domain_limiter.rs:314-339 | In every interleaving of sessions and savers, admissions since the last zeroing are the counter's increase and never take it above the limit |
| DomainQuotaDays.DailyLimitExactly | src/domain_limiter.rs:70-92 | With a forward clock, no day is charged more admissions than its limit (with the restored usage on the first day) in any interleaving of sessions and savers, if and only if nobody can be admitted, or there is at most one slot and no state file; an admission is charged to the day its check read |
| DomainQuotaDays.ClockDayLimitExactly | src/domain_limiter.rs:294-342 | Counted on the day at which they are made, the limit holds if and only if nobody can be admitted |
| DomainQuotaDays.StalledZeroing | src/domain_limiter.rs:74-80 | With two slots, for any limits and restored usage: a stalled zeroing charges a day twice the limit, less what was restored |
| DomainQuotaDays.SwitchedBack | src/domain_limiter.rs:71-77 | With two slots, for any limits and restored usage: a check that read the clock before midnight switches the day back, and the new day is charged one more than its limit |
| DomainQuotaDays.SavedBack | src/service.rs:103-115 | With one slot and a state file, for any limits and restored usage: a flush that read the clock before midnight switches the day back, and the new day is charged one more than its limit |
| DomainQuotaDays.SpannedMidnight | src/domain_limiter.rs:294-342 | With one slot, a check that spans midnight lets a day see one admission more than its limit |
| DomainQuotaOneSlot.StepKeepsOneSlot | src/domain_limiter.rs:70-83 | With one slot and no state file every action keeps: the counter covers what is charged to the day of the check in progress, and no later day is charged |
| DomainQuota.StepKeepsInv | src/domain_limiter.rs:213-373 | Every atomic action of every session and saver keeps: counters are what was added since zeroing, and bytes above the limit leave room for one chunk per live direction |
| DomainQuota.StepKeepsDayInv | src/service.rs:871-938 | On one day every action keeps: bytes written are in the counter or wait in a single chunk of one direction |
| DomainLimiter.LimitKeyIsBest | src/domain_limiter.rs:273-287 | The key a host is charged to is the unique longest configured key that equals it or that it ends in after a dot; there is one whenever any key does |
| DomainLimiter.CrashAgreement | src/domain_limiter.rs:156-271 | After any serial run with restarts, failed writes, stale files and rollovers, if nothing is dirty then reloading on any later day gives the usage memory would show |
| DomainLimiter.DailyConnectionLimit | src/domain_limiter.rs:294-342 | Serially, with a monotone clock and restarts only from a clean file, no day admits more sessions of a key than its limit, counting what the key already shows; with or without a state file |
| DomainUsage.UsageIsHistory | src/domain_limiter.rs:294-373 | Serially, with a monotone clock and restarts only from a clean file, the bytes a key with a bandwidth limit shows for the day are those shown at the start plus the sum of all bytes accounted to it that day, modulo 2^64, and its connections those shown at the start plus the admissions of that day; a new day starts with none |
| DomainUsage.VerdictsExactly | src/domain_limiter.rs:294-373 | After any such run: accounting reports DailyBandwidth if and only if there are bytes to account and the day's sum with them exceeds the limit; a check does if and only if the sum has reached it, reports DailyConnections if and only if it has not and the day's admissions have reached theirs, and allows otherwise; a host under no key is always allowed |
| DomainUsage.FlushThenCrash | src/domain_limiter.rs:239-271 | After any serial run and a successful flush nothing is dirty, and a restart shows for the day the bytes and connections memory showed |
| DomainUsage.OpAdds | src/domain_limiter.rs:344-373 | Up to a day the bytes a key shows for it move only by those accounted to it on that day, across restarts too |
| DomainLimiter.OpKeepsInv | src/domain_limiter.rs:123-373 | Every operation keeps memory and file in agreement whenever the dirty flag is down |
| DomainLimiter.OpCounts | src/domain_limiter.rs:294-342 | What a key shows for a day moves only by its own admissions, across restarts too |
| DomainLimiter.DomainLimiter.Load | src/domain_limiter.rs:123-150 | From any limits and any file: keys are lowercased, and each key gets the file's counters of today for its name or starts at zero; if names stay apart when lowercased, exactly the specified state |
| DomainLimiter.LowerKeys | src/domain_limiter.rs:127-130 | Every limit survives under its lowercased key; where two meet one of them stays |
| DomainLimiter.LoadedExactly | src/domain_limiter.rs:156-211 | If names stay apart when lowercased, the order of the file's entries does not matter |
| DomainLimiter.DomainLimiter.LoadFromDisk | src/domain_limiter.rs:156-211 | For any file, in any order: each configured key takes the counters of an entry for its lowercased name that is of today, or stays at zero if there is none |
| DomainLimiter.DomainLimiter.ResolveLimitKey | src/domain_limiter.rs:273-287 | The scan, in any iteration order, finds that unique longest key |
| DomainLimiter.DomainLimiter.RefreshIfNewDay | src/domain_limiter.rs:70-83 | Only the key's counters change: to zero on a new day, not at all otherwise |
| DomainLimiter.DomainLimiter.CheckConnection | src/domain_limiter.rs:294-342 | Verdict, counters and dirty flag are those specified, whose verdicts `DomainUsage.VerdictsExactly` gives from the history; unlimited hosts are allowed and nothing changes |
| DomainLimiter.DomainLimiter.AccountBytes | src/domain_limiter.rs:344-373 | Verdict, counters and dirty flag are those specified, whose sums and verdicts `DomainUsage` gives from the history; nothing changes without bytes, key or bandwidth limit |
| DomainLimiter.DomainLimiter.BuildSnapshot | src/domain_limiter.rs:219-237 | The file image holds every key's counters refreshed to today |
| DomainLimiter.DomainLimiter.PersistNow | src/domain_limiter.rs:239-264 | Without a directory nothing happens; a failed write refreshes the counters only; the flag goes down only with a successful write, which puts the image on disk |
| DomainLimiter.DomainLimiter.FlushIfDirty | src/domain_limiter.rs:266-271 | Writes exactly when dirty |
| SniGrammar.AcceptsExactlyTheGrammar | src/sni.rs:27-172 | A host with a replay length is reported if and only if the input starts with a well-formed flight of that length whose first host_name decodes to it |
| SniGrammar.Complete | src/sni.rs:27-172 | Every well-formed flight (CCS records, one ClientHello record, any session id, suites, compression, extensions), followed by anything, gives its host name and a replay that ends at the flight's end |
| SniGrammar.Sound | src/sni.rs:27-172 | A reported host comes with a flight of the grammar that is byte for byte the replayed prefix |
| SniGrammar.Stable | src/sni.rs:27-65 | A verdict other than "need more" does not change however the stream continues |
| SniGrammar.PrefixNeedsMore | src/sni.rs:27-65 | Every proper prefix of a flight makes the parser ask for more |
| SniVerdicts.VerdictsExactly | src/sni.rs:27-76 | With the octets written out: HTTP is reported if and only if there are at least five octets and they start with one of the eight methods; otherwise, past whole records of type 0x14, more is needed if and only if the input ends inside a header or record of type 0x14 or 0x16, the input is unknown if and only if a record of another type or a whole 0x16 record of a bad version comes next, and there is no server name if and only if a whole 0x16 record of a good version comes next and the input starts with no flight whose host decodes |
| SniVerdicts.RefusalsExactly | src/service.rs:636-696 | The same for the extraction, on the first 16384 octets a client sends: when it is refused as not TLS, as without server name, as too large and as closed early |
| SniVerdicts.LocateBehind | src/sni.rs:36-64 | Whole records of type 0x14 do not change what is found behind them |
| SniGrammar.OrdinaryList | src/sni.rs:124-142 | In a plain list of entries the body found is that of the first entry with tag zero, wherever it stands |
| SniGrammar.FirstZeroFinds | src/sni.rs:124-172 | Entries with other tags before the zero tag are skipped whatever their bodies and whatever follows |
| SniGrammar.FirstZeroExplained | src/sni.rs:124-172 | Anything found in an entry list decomposes into skipped entries, the zero entry and a tail |
| SniGrammar.HelloFinds | src/sni.rs:78-143 | The host of a well-formed ClientHello message is found in it |
| SniGrammar.HelloExplained | src/sni.rs:78-143 | A message in which a host is found is the serialization of a well-formed ClientHello with that host |
| SniGrammar.LocateFinds | src/sni.rs:36-64 | Any number of CCS records is passed over to the first handshake record |
| SniGrammar.LocateExplained | src/sni.rs:36-64 | What precedes a located handshake record is a sequence of complete CCS records |
| Sni.ParseSniWithReplay | src/sni.rs:27-65 | The cursor loop over records computes the specified verdict and replay length, which `SniVerdicts.VerdictsExactly` and `SniGrammar.AcceptsExactlyTheGrammar` give from the octets, with no index out of range on any input |
| Sni.ParseTlsHandshakeRecord | src/sni.rs:67-76 | The same for one handshake record, with its version checks |
| Sni.ParseClientHello | src/sni.rs:78-143 | The cursor through the message equals the nested reading of its length-prefixed fields |
| Sni.WalkExtensions | src/sni.rs:124-142 | The extension walk equals the first server_name extension of the block |
| Sni.ParseSniExtension | src/sni.rs:145-172 | The name walk equals the first host_name of the list, decoded |
| Sni.StartsLikeHttp | src/sni.rs:174-185 | Eight bytes suffice to tell whether the input starts with one of the method prefixes |
| TlsExtract.ExtractTlsInfo | src/service.rs:636-696 | For every way the stream is cut into reads the outcome is the one determined by the stream alone, which `RoutesExactlyFlights` and `SniVerdicts.RefusalsExactly` give from the octets; at most 16 KiB are read, and flight plus overflow are exactly the bytes read |
| TlsExtract.VerdictSettles | src/service.rs:645-695 | A verdict reached on any prefix is the verdict on the whole stream |
| TlsExtract.RoutesExactlyFlights | src/service.rs:636-696 | A client is routed if and only if its stream starts with a well-formed flight that fits the buffer, and that flight is what is replayed |
| ProbeHello.BuildMinimalTlsClientHello | src/proxy_connector.rs:233-284 | The pushed bytes are the serialization of a flight of the grammar |
| ProbeHello.RoundTrip | src/proxy_connector.rs:233-284 | The relay's own parser reads the host back and takes the whole record if and only if the host has at most 65475 bytes |
| ProbeHello.FieldsFit | src/proxy_connector.rs:233-284 | The nested length fields all fit, and the record is well-formed, if and only if the host has at most 65475 bytes |
| ProbeHello.MessageHeader | src/proxy_connector.rs:266-283 | The record holds a ClientHello that gives its own length, as far as 24 bits tell |
| ProbeHello.TruncatedLength | src/proxy_connector.rs:275-283 | For a longer host the parser sees the record end too early |
| Socks5.EstablishedExactly | src/proxy_connector.rs:478-575 | A tunnel is established if and only if the server's stream starts with well-formed accepting replies; exactly those are read and exactly the matching requests written |
| Socks5.ServerUnderstands | src/proxy_connector.rs:448-551 | A reference server is offered 0x02 with credentials and 0x00 without, and decodes the same host, port and credentials if and only if the credentials it asked for are at most 255 bytes each |
| Socks5.Negotiates | src/proxy_connector.rs:496-530 | With any server that chooses among the methods offered: a client with credentials that gets through did so by 0x02 and the server decoded them, one without by 0x00; if the server does not accept that method the client gives up, having written the greeting only |
| Socks5.RefusalsExactly | src/proxy_connector.rs:501-547 | With the octets written out, for which server streams the client reports no acceptable method, an unsupported method, failed authentication, a host too long, a bad version, and a failed connect with its status |
| Socks5.CutShortExactly | src/proxy_connector.rs:501-575 | For which streams it reports an unknown address type or a close, the lengths of the bound addresses written out |
| Socks5.WrittenExactly | src/proxy_connector.rs:496-535 | Credentials are written exactly to a server that asks for them, and the request exactly once the server lets the client through and the host fits |
| Socks5.ServerReadsTarget | src/proxy_connector.rs:448-476 | Every request the builder accepts decodes to the same target and port |
| Socks5.BuildSocks5ConnectRequest | src/proxy_connector.rs:448-476 | Fails exactly for a name over 255 bytes, and otherwise builds the specified request |
| Socks5.Socks5Connect | src/proxy_connector.rs:478-551 | Outcome, bytes consumed and bytes written equal the specified conversation for every server stream |
| Socks5.RequestTunnel | src/proxy_connector.rs:533-551 | The CONNECT half of the conversation, likewise |
| Socks5.SkipSocks5Addr | src/proxy_connector.rs:553-575 | Consumes exactly the bound address and port of its address type, or fails |
| DnsmasqTheorems.RoundTrip | src/panel/dnsmasq_store.rs:136-325 | For any prior contents of all files and any one-line address, loading after a save gives the normalised rules, bypass winning, if and only if no pattern has a newline, the bypass file is loaded if there are bypass rules, and, if there are relay rules, the relay file is loaded and distinct and the address is neither blank nor has a slash |
| DnsmasqMeaning.LoadsWhatWasAsked | src/panel/dnsmasq_store.rs:156-257 | The round trip from what the panel sends alone: for any prior files, a pattern is loaded as a bypass exactly if some entry trims and lowercases to it with mode "bypass" or "direct", and as a relay exactly if some entry does with another mode and none with those two, never as both; if and only if the conditions of `RoundTrip`, stated on the entries, hold |
| DnsmasqMeaning.LinesWritten | src/panel/dnsmasq_store.rs:250-325 | With patterns and address on one line, the managed lines of the relay file are exactly `address=/pattern/address` for the relayed patterns and the configured relay address, and those of the bypass file exactly `server=/pattern/#` for the bypassed ones |
| DnsmasqMeaning.RuleMeans | src/panel/dnsmasq_store.rs:136-154 | A line carries a relay rule exactly if it trims to `address=/d/a` with `d` and `a` not empty and no slash in `a`, a bypass rule exactly if it trims to `server=/d/#` with `d` not empty, for the lowercased `d` |
| DnsmasqMeaning.ManagedMeans | src/panel/dnsmasq_store.rs:128-134 | A line is managed exactly if it trims to `address=/` and anything, or to `server=/`, anything and `/#` |
| DnsmasqMeaning.ForeignMeans | src/panel/dnsmasq_store.rs:282-309 | A line is foreign exactly if it is not blank, not managed and none of the four banners, which are written out |
| DnsmasqMeaning.ConfMeans | src/panel/dnsmasq_store.rs:160-164 | A conf file is one whose name has something before `.conf` |
| ConfText.TrimExactly | src/panel/dnsmasq_store.rs:213 | Trimming takes blanks off both ends and leaves none there |
| DnsmasqTheorems.BadAddressReads | src/panel/dnsmasq_store.rs:136-144 | With an address that is blank or has a slash a relay line carries no rule, or one for a longer pattern |
| DnsmasqTheorems.LoadAfterSave | src/panel/dnsmasq_store.rs:156-325 | For any patterns and any address, what is loaded after a save is the rules on the lines of the blocks, the relay block being lost if the file is shared |
| DnsmasqTheorems.CleanBlocks | src/panel/dnsmasq_store.rs:311-325 | With patterns and address on one line the blocks hold no foreign line and exactly the rules, but that some relay rule is lost if the address is blank or has a slash |
| DnsmasqTheorems.ForeignLinesSurvive | src/panel/dnsmasq_store.rs:231-309 | Over any number of saves, for any patterns and any address, every foreign line stays in its own file in order, up to carriage returns at its end; a managed file gains in front copies of the second banner line, whose number is given exactly, and behind the foreign lines of the blocks |
| DnsmasqTheorems.NothingInjected | src/panel/dnsmasq_store.rs:204-325 | With patterns and address on one line there are none of the latter |
| DnsmasqTheorems.RepeatedSave | src/panel/dnsmasq_store.rs:204-309 | Repeating a save, for any patterns and any address, changes no loaded rule; it leaves the non-comment lines of a file as they are, in order, if and only if none is injected into it |
| DnsmasqTheorems.OtherFileLines | src/panel/dnsmasq_store.rs:230-248 | A file that is not managed loses exactly its managed rules |
| DnsmasqTheorems.ManagedFileForeign | src/panel/dnsmasq_store.rs:259-309 | One save's effect on the foreign lines of a managed file, for any patterns and any address |
| DnsmasqTheorems.SavedDirectives | src/panel/dnsmasq_store.rs:259-325 | The non-comment lines of a managed file after a save: the old foreign ones, then those of the blocks |
| DnsmasqTheorems.RewrittenFile | src/panel/dnsmasq_store.rs:259-309 | Rewriting a file with any block drops its old rules and banners, keeps its foreign lines between a notice and those of the block, and leaves it the block's rules |
| DnsmasqTheorems.RelayLineReads | src/panel/dnsmasq_store.rs:136-144 | A rendered relay line parses back to its domain |
| DnsmasqTheorems.BypassLineReads | src/panel/dnsmasq_store.rs:146-154 | A rendered bypass line parses back to its domain |
| DnsmasqStore.StripManagedLines | src/panel/dnsmasq_store.rs:298-309 | The loop keeps exactly the lines that are not managed rules, in order |
| DnsmasqStore.StripPanelBanners | src/panel/dnsmasq_store.rs:282-296 | The loop keeps exactly the lines that are not banners, in order |
| DnsmasqStore.RenderRelayLines | src/panel/dnsmasq_store.rs:311-317 | One relay line for each domain, in ascending order |
| DnsmasqStore.RenderBypassLines | src/panel/dnsmasq_store.rs:319-325 | One bypass line for each domain, in ascending order |
| DnsmasqStore.FileStore.LoadDomains | src/panel/dnsmasq_store.rs:156-201 | Finds exactly the rules on the lines of the conf files, in any directory order, each with the name of a file that has it |
| DnsmasqStore.FileStore.SaveDomains | src/panel/dnsmasq_store.rs:204-257 | The files afterwards are those specified, which `DnsmasqMeaning` gives from the entries and the letters on the lines; without a relay address it fails and touches nothing |
| DnsmasqStore.FileStore.WriteManagedFile | src/panel/dnsmasq_store.rs:259-280 | Only the named file changes, to the specified text |
| DnsmasqStore.FileStore.CleanOtherFiles | src/panel/dnsmasq_store.rs:230-248 | Every other conf file loses its managed rules and nothing else changes |
| UpstreamMonitor.HealthIsHistory | src/upstream_monitor.rs:63-105 | Over any probe sequence an endpoint is down if and only if some run of as many failures as the fail threshold asks for, at least one, has no run of as many successes as the recover threshold asks for after it |
| UpstreamMonitor.TransitionsFollowHistory | src/upstream_monitor.rs:63-105 | WentDown and Recovered fire exactly when the history's verdict changes, WentDown exactly as the failures in a row reach max(1, fail threshold) and with the run's last error, Recovered exactly as the successes in a row reach max(1, recover threshold); the downtime runs from the probe that began the outage |
| UpstreamMonitor.OutageDated | src/upstream_monitor.rs:63-105 | The outage date is set exactly while down, and is the time of the probe that began the outage |
| UpstreamMonitor.OutageUnique | src/upstream_monitor.rs:63-105 | Only one probe can have begun the outage that lasts at the end of a history |
| UpstreamMonitor.ReportsAlternate | src/upstream_monitor.rs:63-105 | Reported transitions alternate, starting with WentDown, and their parity is the health |
| UpstreamMonitor.RunTracks | src/upstream_monitor.rs:63-105 | The counter that matters in each state is the length of the trailing run, saturated |
| UpstreamMonitor.AlertsExactly | src/upstream_monitor.rs:345-390 | An alert goes out if and only if the transition is WentDown, or Recovered with recovery alerts switched on, and every earlier alert is at least the cooldown away |
| UpstreamMonitor.AlertsSpaced | src/upstream_monitor.rs:107-112 | Any two alerts of an endpoint are at least the cooldown apart |
| UpstreamMonitor.ProfileState.ApplyProbeResult | src/upstream_monitor.rs:63-105 | The in-place update and its transition are those of the automaton |
| UpstreamMonitor.ProfileState.Observe | src/upstream_monitor.rs:345-390 | One probe with its alert decision, in place |
| UpstreamMonitor.Monitor.Entry | src/upstream_monitor.rs:334 | A state is created on first sight and no two endpoints share one |
| UpstreamMonitor.Monitor.Observe | src/upstream_monitor.rs:328-390 | Each endpoint's state and alerts are those of its own probes, however the endpoints' probes interleave |
| MonitorTargets.KeyIdentifiesEndpoint | src/upstream_monitor.rs:125-131 | Two proxies have the same key if and only if kind, host and port agree, whatever characters the hosts contain |
| MonitorTargets.TargetsToCheck | src/upstream_monitor.rs:211-261 | One target per endpoint in use, listing exactly the watched profiles that use it in ascending order, targets in order of their first profile; its proxy is that of the first configured profile at the endpoint, or of some profile there if none are configured |
| MonitorTargets.CoveredOnce | src/upstream_monitor.rs:237-261 | Every watched profile belongs to exactly one target |
| MonitorTargets.RoundCovers | src/upstream_monitor.rs:211-261 | A profile is in a round exactly if it is not direct and is asked for, or nothing is; two such profiles are in one target exactly if kind, host and port agree |
| MonitorTargets.KeysDiffer | src/upstream_monitor.rs:237-261 | No endpoint is probed twice in a round |
| MonitorTargets.RoundDetermined | src/upstream_monitor.rs:211-261 | Keys, lists and order of a round do not depend on the iteration order of the maps |
| UpstreamRegistry.CandidatesAreAPermutation | src/upstream_registry.rs:70-105 | With failover every profile is tried exactly once |
| UpstreamRegistry.TriedInOrder | src/upstream_registry.rs:48-105 | The known profile mapped to the client's address, else the default, comes first; without failover it is alone; with failover the default comes second unless it was first, and the rest ascend |
| UpstreamRegistry.SortedAreFallbacks | src/upstream_registry.rs:83-103 | However the names come out of the map, sorting gives the default first and then the rest strictly ascending |
| UpstreamRegistry.TriedBeforeIsStrictTotal | src/upstream_registry.rs:89-97 | The comparator is a strict total order on names |
| UpstreamRegistry.Registry.ConnectCandidates | src/upstream_registry.rs:70-105 | The client's profile first, alone without failover, the default second with it when it differs, then the other fallbacks, each with its proxy; an error exactly when the client's profile is unknown, never in a sound registry |
| UpstreamRegistry.Registry.ProfileNameForIp | src/upstream_registry.rs:48-55 | The mapped profile if known, else the default, by canonical or trimmed address |
| UpstreamRegistry.Registry.SetClientUpstream | src/upstream_registry.rs:114-123 | Succeeds exactly for a known profile and a real address, and then changes that one mapping |
| UpstreamRegistry.Registry.RemoveClientUpstream | src/upstream_registry.rs:126-131 | Removes that one mapping and says whether it existed; refuses what is not an address |
| UpstreamRegistry.FromParts | src/upstream_registry.rs:134-163 | Succeeds exactly for acceptable parts and gives a sound registry with canonical keys |
| UpstreamRegistry.NeverWithoutProfile | src/upstream_registry.rs:114-163 | Under any sequence of panel operations the registry stays sound and every client has a known profile |
| UpstreamRegistry.SetRoutes | src/upstream_registry.rs:48-123 | A mapping set under one spelling holds for every spelling of the address and affects no other client |
| UpstreamRegistry.RemoveRoutes | src/upstream_registry.rs:48-131 | A removed mapping sends its clients to the default and nobody else anywhere new |
| UpstreamConfig.AppConfig.ApplyDefaultProxyOverride | src/config.rs:744-767 | Only the profile that becomes the default changes: the configured default if usable, else "default" or some existing profile |
| UpstreamConfig.AppConfig.NormalizeUpstreams | src/config.rs:802-861 | Fails, changing nothing, exactly when the default is not among the profiles; otherwise default, legacy proxy and client mappings are the specified ones |
| UpstreamConfig.OverrideThenNormalize | src/config.rs:744-861 | After an override normalisation cannot fail, and every profile but the default is untouched |
| UpstreamConfig.NormalizeIsIdempotent | src/config.rs:802-861 | Normalising again changes nothing |
| UpstreamConfig.NormalizedFields | src/config.rs:802-836 | From the fields: without profiles the single proxy becomes the profile "default"; with profiles they stay, the default is the configured one, else "default", else the least name, and the single proxy follows it |
| UpstreamConfig.LoadedRegistryNeverFails | src/upstream_registry.rs:22-29 | From any configuration that loads, under any panel operations, every client resolves to a known profile |
| UpstreamConfig.LoadedRouting | src/config.rs:839-858 | After loading, a client goes where a configured entry for some spelling of its address and an existing profile (without profiles, "default") sends it, or to the default if there is none |
| UpstreamConfig.ChooseDefault | src/config.rs:809-829 | The configured default, refused exactly if it is unknown; without one the profile called "default", else the least name |
| UpstreamConfig.LeastKey | src/config.rs:818-828 | Without a default, the least name is chosen |
| UpstreamConfig.Canonicalize | src/config.rs:853-858 | Every mapping survives under its canonical address; where two meet one of them stays |
| Traffic.TablesAgree | src/panel/db.rs:174-211 | In every reachable state the row of a day and address equals the sum of its per-domain rows, and exists exactly when one of those does |
| Traffic.QueriesCount | src/panel/db.rs:174-211 | Any selection by key over either table gives the integer sums of the bytes up and of the bytes down, and the number, of the recorded samples with such keys |
| Traffic.DailyTotal | src/panel/db.rs:267-287 | A day's total is the same over both tables: the bytes up, the bytes down and the number of the samples recorded that day |
| Traffic.OrderDoesNotMatter | src/panel/db.rs:174-211 | The tables depend only on which samples were recorded on which day |
| TrafficAggregator.ScheduleDoesNotMatter | src/panel/traffic.rs:27-53 | On one day without failed commits, once the loop has ended, the tables are those of what they held before and the accepted samples, however these were flushed |
| TrafficAggregator.SchedulesAgree | src/panel/traffic.rs:27-53 | Two such runs on the same tables that accepted the same samples in any order leave the same tables |
| TrafficAggregator.BatchesCutTheStream | src/panel/traffic.rs:27-53 | Flushed batches followed by the buffer are the accepted samples in order; the buffer stays below 500 and is empty once closed |
| TrafficAggregator.FlushesWhen | src/panel/traffic.rs:27-77 | A batch goes out exactly with its five hundredth sample, on a tick and at the close, whole and never empty |
| TrafficAggregator.SamplesConserved | src/panel/traffic.rs:69-77 | Even with failed commits every accepted sample is in exactly one place: recorded, lost with its batch, or buffered |
| TrafficAggregator.UpsertAll | src/panel/db.rs:186-207 | The upserts of a batch give the tables of the longer history |
| TrafficAggregator.PanelDb.ApplyTrafficBatch | src/panel/db.rs:174-211 | All of a batch is recorded or none of it, and the tables stay those of the recorded history |
| TrafficAggregator.Aggregator.FlushBuf | src/panel/traffic.rs:69-77 | An empty buffer does nothing; otherwise the whole buffer becomes one batch, kept or lost |
| TrafficAggregator.Aggregator.Serve | src/panel/traffic.rs:27-53 | The loop over samples, ticks and close follows the specified batching for every event sequence, on a database that may already hold rows |
| SessionMetrics.RunKeepsInv | src/metrics.rs:194-235 | In every interleaving each gauge counts exactly the connections that have entered and not left it, and slots are conserved |
| SessionMetrics.GaugesAgree | src/metrics.rs:194-235 | When no handler is between two updates, the active gauge is the number of open sessions, each labelled gauge the number with its labels, and they add up |
| SessionMetrics.GaugesAlmostAgree | src/metrics.rs:194-235 | At any instant the gauge and the sum of its labelled gauges differ at most by the handlers caught between updates |
| SessionMetrics.GaugeWithinSlots | src/service.rs:294-314 | The active gauge is never negative and never above the connection slots |
| SessionMetrics.TotalConserved | src/service.rs:492-558 | Every connection counted as opened is still counted, closed, or broken off |
| SessionMetrics.TotalsAreHistory | src/metrics.rs:194-235 | In every interleaving each labelled total is the number of connections with its labels that were ever opened, with those about to be, and the errors are the handlers that have failed, but for those about to report it |
| SessionMetrics.NothingLeaks | src/service.rs:545-558 | Once every handler has ended, all gauges read zero and all slots are free |
| SessionMetrics.StepKeepsInv | src/metrics.rs:194-235 | Every single update of every handler keeps that invariant |
| SessionMetrics.CallsAreUpdates | src/metrics.rs:194-235 | Each metrics call is the sequence of a handler's single updates |
| SessionMetrics.Registry.ConnectionOpened | src/metrics.rs:194-200 | Both gauges and both totals rise by one, for these labels only |
| SessionMetrics.Registry.ConnectionClosed | src/metrics.rs:202-205 | Both gauges fall by one, for these labels only |
| SessionMetrics.Registry.ConnectionFailed | src/metrics.rs:227-235 | The gauges fall only if the connection had been opened |
| SessionMetrics.Registry.HandleConnection | src/service.rs:492-558 | However a handler ends, the gauges are as before; the total, the total of its labels alone and the errors count it as they should |
| QueryLog.CorrelatesExactly | src/panel/dnsmasq_query_log.rs:78-117 | Over a vocabulary of questions and answered domains, the table is right after every history if and only if the lookup keys are unambiguous; right means every query's timestamp, client, type and domain are in its row, with its answer if there is one, and every other answer in a row of its own |
| QueryLog.AnswersRecorded | src/panel/dnsmasq_query_log.rs:78-117 | Over any history of such a vocabulary every answer can be read off one row, shared with no other answer and never overwritten: the row of its domain's latest query if still unanswered, else its own |
| QueryLog.BarFreeIsUnambiguous | src/panel/dnsmasq_query_log.rs:91-103 | Non-empty clients and domains without a bar are unambiguous |
| QueryLog.KeysAre | src/panel/dnsmasq_query_log.rs:91-101 | The lookup keys, letter by letter |
| QueryLog.ResolvedOnce | src/panel/dnsmasq_query_log.rs:99-106 | A query is joined to at most one answer, later than it and for the same domain |
| QueryLog.RecordedOnce | src/panel/dnsmasq_query_log.rs:99-116 | No two answers are recorded in one row |
| QueryLog.UnansweredIsLatest | src/panel/dnsmasq_query_log.rs:91-103 | A domain is pending if and only if its last event since the map was emptied is a query |
| QueryLog.RunTracks | src/panel/dnsmasq_query_log.rs:78-117 | The pending map and the table are at all times what the history says they should be |
| QueryLog.RowsCovered | src/panel/dnsmasq_query_log.rs:82-116 | Every row of the table belongs to a query or to an answer of its own |
| QueryLog.WrongDomain | src/panel/dnsmasq_query_log.rs:99-103 | Whenever a key of a query matches an answer for another domain, the answer lands in that query's row |
| QueryLog.OlderQuery | src/panel/dnsmasq_query_log.rs:99-103 | A query with the full key of an answer takes the answer from a newer query for the domain |
| QueryLogIngest.Ingest.IngestOnce | src/panel/dnsmasq_query_log.rs:53-124 | A tick ingests exactly the lines after the offset, restarts on a shortened file, and leaves at most 50,000 pending keys |
| QueryLogIngest.Ingest.IngestLine | src/panel/dnsmasq_query_log.rs:78-117 | One event's effect on the table and the map |
| QueryLogIngest.Ingest.Follow | src/panel/dnsmasq_query_log.rs:33-49 | Ticks over a log that grows by whole lines ingest each line after the offset exactly once and in order, however the ticks fall and whichever of them fail |
| QueryLogIngest.TickReadsOn | src/panel/dnsmasq_query_log.rs:63-78 | One tick extends the ingested lines from the offset to the end of what it sees, or leaves them if it cannot read |
| QueryLogIngest.TickAdds | src/panel/dnsmasq_query_log.rs:53-78 | A tick adds the lines after the offset, or all lines of a file shorter than that, which also starts with no query pending |
| QueryLogIngest.CutBetweenLines | src/panel/dnsmasq_query_log.rs:72-78 | Reading in two pieces gives the same lines if and only if the cut is not inside a line |

## Left out

- DomainQuota.BoundedOvershoot: with a connection limit as well its condition is sufficient and not claimed necessary; bytes of a `write_all` that fails midway and the replayed handshake bytes are outside the count, as in the code.
- DomainLimiter.CrashAgreement: is about serial runs, and about files without days in the future and with 64-bit byte counts whose names stay distinct when lowercased; the dirty flag is cleared after the snapshot is taken and can race with a concurrent update.
- DomainLimiter.DomainLimiter.Load: a file that cannot be read or parsed, with which the service logs the error and runs without any limiter (src/service.rs:60-76), and the JSON encoding.
- DomainQuota.StepKeepsInv: the image a saver takes may be torn, and what is in the file afterwards is not followed under concurrency; saving other domains is only seen through the shared dirty flag.
- TlsExtract.ExtractTlsInfo: timeouts and read errors are not modelled, and neither are the HTTP and automatic branches of host extraction.
- Sni.ParseSniExtension: UTF-8 validation and Unicode lowercasing are the parameter `text`; elsewhere lowercasing and whitespace are ASCII.
- Socks5.Socks5Connect: the connection itself, its timeouts and the wording of errors; parsing the host as an IP address is the caller's choice of target.
- `http_connect` and the CONNECT branch of `extract_http_info`, which may drop bytes read past the header.
- DnsmasqStore.FileStore.LoadDomains: the order of the result, and which of several files with the same rule is named; directory and file I/O errors, choosing the files, and reloading dnsmasq.
- DnsmasqMeaning.LoadsWhatWasAsked: an address with a newline, where what is loaded is only given as the rules on the lines of the blocks (`LoadAfterSave`).
- DnsmasqTheorems.ForeignLinesSurvive: files are text; a managed file that is not UTF-8 is read as empty (src/panel/dnsmasq_store.rs:263) and so loses all its foreign lines in a save.
- MonitorTargets.TargetsToCheck: without configured profiles, if those of one endpoint differ in credentials, which of them is used for the probe is open, as in the code.
- UpstreamMonitor.Monitor.Observe: the probe itself, the text of the messages, and whether Telegram delivers them.
- UpstreamConfig.Canonicalize: IP parsing is the parameter `canon`, assumed to leave canonical spellings alone.
- The whitelist, listener and hosts parts of the configuration, environment overrides, and YAML.
- Traffic.TablesAgree: `last_seen`, and the cast of byte counts to signed 64-bit integers.
- TrafficAggregator.ScheduleDoesNotMatter: samples dropped because the queue is full are not events.
- SessionMetrics.RunKeepsInv: the byte counters, the accepted and rejected counters, the errors by label, and cancelled or panicking handlers.
- QueryLog.AnswersRecorded: assumes successful inserts and updates and no pruning; the regular expressions and timestamps are the parameter `parse`.
- QueryLogIngest.Ingest.IngestOnce: the file does not change during a tick, and its length is counted in characters.
- The client ACL, self-loop guard, rate limits, hosts table and panel handlers are not modelled.
