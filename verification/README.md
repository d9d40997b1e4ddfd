# WiFi captive portal: verified model

This project models the parts of the captive portal whose correctness does not show in any one
function, and proves properties of them over all inputs and all runs.

- **The session state machine and the kernel tables it drives.** `PortalState.dfy` has the database
  tables, the two nftables address sets, the MAC set and the two tc class tables, and the effects that
  change them: one database commit, one nft command, one tc command. `Operations.dfy` gives every
  operation as its ordered list of effects. `Invariants.dfy` and `OperationSafety.dfy` prove an
  invariant at every micro-step. `Sweeps.dfy` and `Agreement.dfy` give the final states in closed form.
  `Runs.dfy` and `Vouchers.dfy` lift everything to whole runs in which any operation may be killed after
  any effect and any add to the kernel tables may fail; `FailedDeletes.dfy` says what a failing delete
  costs. `Gateway.dfy` and `Portal.dfy` are the classes themselves: fields changed in place, proved to have
  exactly the effects of their operation, with a ghost log of every effect. `Stuck.dfy` follows a session at
  an IPv6 address through every run, and `SharedAddress.dfy` holds the run that makes the whitelist inexact.
  `Firewall.dfy` is the nftables rule list; `TrafficControl.dfy` the class ids and the counter lookup.
- **The rate limiter** (`RateLimit.dfy`): one counter per client, and the bound over whole timed traces.
- **The FIAS protocol, both ends**: re-framing (`Framing.dfy`), UTF-8 (`Utf8.dfy`), escaping and XML
  attribute values (`Xml.dfy`), one printed tag and reading it back (`Tags.dfy`), the guest record printer
  and parser (`GuestRecord.dfy`), the client's requests and the server's handlers (`FiasRecords.dfy`), the
  shared socket with its lock as a state machine over interleaved tasks that carries the very bytes the
  client writes and may be closed by the server (`FiasClient.dfy`), exactly which queries keep replies and
  requests paired (`FiasPairing.dfy`), and when that connection is dead (`FiasSilence.dfy`). The server's XML
  parser is a parameter there: all that is asked of it is that it reads one printed tag without quotes
  inside its values as XML 1.0 lays down, and the theorems hold whatever it makes of anything else.
- **Two installer text transformers**: the `.env` file (`EnvFile.dfy`) and `redis.conf` (`RedisConf.dfy`),
  over text files read as Python's text mode reads them (`TextFile.dfy`).

`Common.dfy` and `Text.dfy` hold the small shared types and text helpers. `dafny verify dfyconfig.toml`
checks everything.

## What turned out not to hold

Each of these is stated as an exact condition, not left out.

- A login from an IPv6 address fails with every command working, but leaves a committed active session
  (`Stuck.Ipv6LoginLeavesRow`). Nothing ever ends or moves that session, on any run (`Stuck.StuckForever`).
  Its class id cannot be computed, so from its end on every expiry sweep raises, every byte job raises,
  and no sweep ever ends an overdue session behind it (`Stuck.OverdueBehindStays`); which sweeps raise is
  exact (`Sweeps.SweepRaises`, `Sweeps.BytesReachEnd`).
- Withdrawing an address that another session is still active at takes it out of the whitelist for
  both; the index stays exact if and only if no operation does that (`Agreement.IndexStaysExact`,
  `Runs.IndexExactOverRun`). Two logins from one address and a kick are such a run
  (`SharedAddress.SharedAddressBreaksIndex`).
- A firewall restart leaves active sessions shut out (`Agreement.RestartAgreement`), and between
  dropping and loading the table traffic is forwarded unfiltered: the access theorem therefore speaks
  of a loaded table (`Runs.NoAccessWithoutSession`).
- Sessions are stored under the MAC text of the ARP table but looked up in upper case, so
  disconnecting ends them if and only if the text was upper case already, or there were none
  (`Sweeps.DisconnectEnds`, `Sweeps.LowerCaseStays`).
- The use of a voucher is counted last. A validated login of a device without a live session always leaves
  a session, and counts the use if and only if the address can be opened: not after a failing add, not
  with the table unloaded, not from an IPv6 address (`Vouchers.FailedLoginIsFree`). With kills, a step adds
  more sessions than uses if and only if it got as far as its first commit and not to its end
  (`Vouchers.UncoveredStepIff`), and over a run the uses cover the sessions if and only if they cover the
  creating logins (`Vouchers.UsesCoverIff`).
- The deletes of nft and tc are unchecked, and an expiry whose delete fails goes on. The invariant survives
  that if and only if no failing delete leaves behind an address or a class that only this session accounts
  for (`FailedDeletes.FailedDeletesSafeIff`).
- A non-positive window turns the rate limiter off (`RateLimit.NoWindowNoLimit`).
- Reservation and room number are printed unescaped and years have two digits, so a guest record comes
  back if and only if those fields are free of markup and both years are in 1969 to 2068
  (`GuestRecord.GuestRoundTrip`, `GuestRecord.SpoiledGuests`).
- The client prints the room and the name a guest types unescaped as well. The server reads what was asked
  if and only if both can stand between quotes (`FiasRecords.RequestRoundTrip`). A request is one record if
  and only if no text in it holds a line end (`FiasRecords.OneRecordIff`), and replies pair up with requests
  on every run, unless the connection is closed, if and only if at most one record of each request can be
  answered (`FiasPairing.PairingIff`, `FiasPairing.TwoRecordsInOneName`).
- A logout record, which a typed name may contain, or a dropped connection closes the connection, and somebody
  reads nothing. With no connection dropped, every read returns its own reply on every run if and only if at
  most one record of the query can be answered and none is a logout (`FiasPairing.OneReplyEachIff`,
  `FiasPairing.LogoutInName`).
- The server says nothing to a request it cannot parse, nor to a departure query for a day without
  departures. The client then waits for ever while holding the lock, and so does everybody after it:
  exactly these requests do that (`FiasRecords.AnsweredIff`, `FiasSilence.SilenceIff`,
  `FiasSilence.SilenceIffTexts`), among them a name with a bare ampersand (`FiasSilence.AnAmpersandBlocks`),
  unless a logout follows on its next line (`FiasSilence.ALogoutEndsTheWait`).
- A query by room alone is matched against an empty name, so it finds nobody who has one
  (`FiasRecords.RoomQueryFindsNobody`).
- Rewriting `redis.conf` is idempotent if and only if no value is blank and no added line is glued to an
  unterminated last line (`RedisConf.IdempotentIff`, `RedisConf.UnendedFileGrows`).

## Model

| member | source | states |
|---|---|---|
| PortalState.ClassId | app/network/tc.py:18-22 | the class id of an IPv4 address lies in 0 to 65535 |
| Invariants.EffectKeepsInv | app/network/session_manager.py:41-89 | any single allowed effect (one commit, one nft or one tc command) keeps the whole invariant: access and shaping only for active sessions, one live session per device, the device cap |
| Invariants.EveryCutIsSafe | app/network/session_manager.py:41-89 | a disciplined sequence of effects cut off after any number of them ends in a good state |
| OperationSafety.InsertAllowed | app/portal/router.py:163-183 | the insert create_session commits is within the device cap and gives no device a second live session, whatever guest writes it commits with |
| OperationSafety.MoveDisciplined | app/network/session_manager.py:45-55 | the address move withdraws the old address and classes before committing the new one and opens it only then |
| OperationSafety.ExpireDisciplined | app/network/session_manager.py:83-89 | expiry withdraws both set elements and the classes before the status is committed, with any waiting byte counts |
| OperationSafety.OperationDisciplined | app/network/session_manager.py:19-116 | every operation, on every input and with every combination of failing adds, opens only for committed active rows and closes before a row stops being active |
| Runs.EveryMomentIsSafe | app/network/session_manager.py:41-116 | over every run from a fresh install, between any two effects, whatever was killed and whichever adds failed before, the invariant holds |
| FailedDeletes.FailedDeletesSafeIff | app/network/nftables.py:68-80 | ending a session at an IPv4 address while any of its four delete commands fail keeps the whole invariant if and only if no failing delete leaves behind an address or class that no other active session accounts for |
| FailedDeletes.AccessSurvivesIff | app/network/nftables.py:106-120 | nobody is let through without an active session afterwards if and only if no failing nft delete leaves an address that only this session held |
| Runs.DeviceCapHolds | app/portal/router.py:163-183 | at every moment of every run the active sessions of a guest are at most max_devices |
| Runs.SweepEndsOverdueAccess | app/network/session_manager.py:106-116 | right after a completed expiry sweep on any run, every whitelisted or DNS-bypassed address has an active session that is not over |
| Runs.MarkOrigin | scripts/setup-nftables.sh:114-115 | every connection mark goes back to a step of the run at which the connection's first packet came from a MAC then in the bypass set |
| Runs.NoAccessWithoutSession | scripts/setup-nftables.sh:142-156 | end to end over every run: a loaded firewall forwards a packet of a new connection only from the address of an active session, or a bypassed MAC, or on a connection whose first packet came from one |
| Firewall.PreroutingChain | scripts/setup-nftables.sh:102-130 | first-match evaluation of the eight prerouting rules equals a closed decision |
| Firewall.ForwardChain | scripts/setup-nftables.sh:142-156 | first-match evaluation of the forward chain accepts exactly established traffic, and whitelisted or marked traffic that is not DoH from an authenticated client |
| Firewall.NewTrafficForwarded | scripts/setup-nftables.sh:102-156 | both chains and routing composed: exactly which packets of new connections a loaded firewall forwards |
| Sweeps.ExpireOutcome | app/network/session_manager.py:83-89 | expire_session raises exactly for an IPv6 row; otherwise its whole final state |
| Sweeps.SweepOutcome | app/network/session_manager.py:101-104 | a sweep raises exactly when a listed row has an IPv6 address; otherwise all listed rows have the new status, their addresses and classes are gone and nothing else changed |
| Sweeps.SweepRaises | app/network/session_manager.py:106-116 | a sweep over a query raises if and only if some selected session has an IPv6 address |
| Sweeps.ExpiryIsExact | app/network/session_manager.py:106-116 | a completed expiry sweep expires exactly the active sessions whose time has come and leaves every other row as it was |
| Sweeps.OneActiveAfterExpiry | app/network/session_manager.py:31-40 | right after a completed expiry sweep a device has at most one active session at all |
| Sweeps.CheckoutEmpties | app/network/session_manager.py:91-104 | after a completed room checkout nobody is active in the room, and no other empty room gains anybody |
| Sweeps.CheckoutsEmpty | app/network/scheduler.py:48-51 | after a list of checkouts nobody is active in any of its rooms, later checkouts keeping earlier rooms empty |
| Sweeps.SyncMovesOnlyWhenDone | app/network/scheduler.py:42-55 | wherever the poll is cut off, last_sync_at has moved only if every reported room is empty |
| Sweeps.DisconnectEnds | app/portal/router.py:239-256 | after disconnect no session is active under the upper-case MAC; none is under the MAC as stored if and only if that is upper case already or none was |
| Sweeps.LowerCaseStays | app/portal/router.py:243-250 | a device whose MAC is stored in lower case keeps its session when it disconnects |
| Sweeps.BytesOutcome | app/network/scheduler.py:66-75 | the job's loop from any point: each row ends sampled and expired when over quota, each earlier row gets its waiting counts, nothing else in the rows changes |
| Sweeps.BytesTables | app/network/scheduler.py:66-75 | after the job the kernel tables lack exactly what belonged to the over-quota rows |
| Sweeps.BytesReachEnd | app/network/scheduler.py:66-75 | the job raises if and only if some sampled session has an IPv6 address |
| Sweeps.QuotaEnforced | app/network/scheduler.py:58-75 | when the job ends, a sampled session is expired if and only if its positive quota is used up by its recorded download, and otherwise is still active |
| Agreement.CreateOutcome | app/network/session_manager.py:19-81 | when create_session raises, and its whole final state when it does not: row committed, address in both sets, classes made with the stored or requested rates |
| Agreement.CreateAgreement | app/network/session_manager.py:41-81 | from an exact index, a completed create_session leaves it exact if and only if no other session is active at the address the device moved away from |
| Agreement.WithdrawAgreement | app/network/session_manager.py:83-116 | withdrawing rows from an exact index leaves it exact if and only if no remaining session shares an address with them |
| Agreement.IndexStaysExact | app/network/session_manager.py:41-116 | for every operation but a restart, run to its end: the index stays exact if and only if it withdraws no address that another session stays active at |
| Agreement.RestartAgreement | scripts/setup-nftables.sh:70-81 | after a firewall restart the index is exact if and only if no session is active |
| Agreement.RestartOutcome | scripts/setup-nftables.sh:70-183 | the restart empties the three sets and leaves only the default class on both devices |
| Runs.IndexExactOverRun | app/network/session_manager.py:41-116 | on a run without restart whose steps ran to their end or had no effect at all (refused logins, say), the index is exact after each step up to, and exactly up to, the first one that withdraws a shared address |
| Runs.PoliteKeepsDistinct | app/network/session_manager.py:41-116 | with kicks of active sessions and logins only from addresses nobody else holds, operations that run to their end or have no effect keep active addresses distinct |
| Runs.IndexExactOnPoliteRuns | app/network/session_manager.py:41-116 | on every run of such steps, idle ones included, from a fresh install both sets equal the addresses of the active sessions after each step |
| SharedAddress.SharedAddressBreaksIndex | app/network/session_manager.py:83-89 | two voucher logins from one address and a kick of the first, all run to their end, leave the second client active and shut out |
| Stuck.Ipv6LoginLeavesRow | app/network/session_manager.py:73-79 | a login from an IPv6 address without a live session raises whatever the commands do, and leaves a committed active session there |
| Stuck.Ipv6VoucherLogin | app/portal/router.py:206-226 | with every command working, any good voucher code entered from an IPv6 address does so |
| Stuck.OperationSpares | app/network/session_manager.py:48-89 | no operation writes the status or the address of an active IPv6 session, wherever it is cut off |
| Stuck.StuckForever | app/network/session_manager.py:83-89 | over every run with every cut, an active session at an IPv6 address stays active, with the same end |
| Stuck.OverdueBehindStays | app/network/session_manager.py:106-116 | from its end on, on every run from a fresh install, every expiry sweep and every byte job raises, and no sweep changes the status of a row behind it |
| Vouchers.VoucherStep | app/portal/router.py:206-226 | one voucher login, killed anywhere: the use is counted exactly if it ran to its end, and a session is created exactly if the device has no live one and the first commit was reached |
| Vouchers.VoucherConservation | app/voucher/generator.py:19-28 | over every run: used_count has grown by exactly the accepted logins and stays within max_uses, and the sessions ever created for the voucher by exactly the creating logins |
| Vouchers.UsesCoverIff | app/portal/router.py:218-225 | from an unused voucher, used_count covers the sessions created if and only if the accepted logins cover the creating ones |
| Vouchers.UncoveredStepIff | app/portal/router.py:218-225 | a step, cut anywhere, adds more sessions than uses if and only if it is a validated login of a device without a live session that reached its first commit and not its end |
| Vouchers.UninterruptedVoucher | app/portal/router.py:206-226 | when every validated login ran to its end, used_count covers all sessions ever created for an unused voucher and is at most max_uses |
| Vouchers.FailedLoginIsFree | app/portal/router.py:218-225 | a validated login that is not killed, of a device without a live session, always leaves an active session, and counts the use if and only if the address can be opened (both adds work, the table is loaded, the address is IPv4); otherwise it raises and the voucher stays valid |
| Operations.Validate | app/voucher/generator.py:19-28 | success gives the voucher with the code, not expired and with uses remaining; invalid exactly when no voucher has the code; expired and used up only for such a voucher, expiry being reported first |
| Operations.RoomExpiry | app/portal/router.py:124-130 | a room session ends by check-out and within the policy's duration, and before check-out only because of the policy |
| Operations.Newest | app/network/session_manager.py:32-39 | the most recently connected live session of the device, or none if there is none |
| Operations.Select | app/network/session_manager.py:106-112 | the query returns exactly the selected active rows, in table order, each once |
| Gateway.World.AlwaysSafe | app/network/session_manager.py:41-89 | every state the running gateway has been in since it was made satisfies the invariant |
| Gateway.World.Commit | app/network/session_manager.py:88 | a commit applies all waiting writes in order, as one effect |
| Gateway.World.AddToWhitelist | app/network/nftables.py:51-66 | the add happens and is reported exactly when nft works, the table is loaded and the address is IPv4; otherwise nothing changes |
| Gateway.World.RemoveFromWhitelist | app/network/nftables.py:68-80 | the address is out of the set afterwards, whether it was in or not |
| Gateway.World.AddDnsBypass | app/network/nftables.py:95-104 | as for the whitelist |
| Gateway.World.RemoveDnsBypass | app/network/nftables.py:106-120 | as for the whitelist |
| Gateway.World.CreateSessionRules | app/network/nftables.py:124-130 | whitelist first, then DNS bypass; a failing add raises and leaves what was added |
| Gateway.World.RemoveSessionRules | app/network/nftables.py:132-137 | both elements are deleted, whitelist first, and nothing raises |
| Gateway.World.ApplyBandwidthLimit | app/network/tc.py:84-171 | only positive rates make classes, failing tc commands are ignored, and an IPv6 address raises unless both rates are zero |
| Gateway.World.RemoveBandwidthLimit | app/network/tc.py:174-224 | the WAN class goes always, the upload class only for a positive stored rate, and an IPv6 address raises |
| Gateway.World.RestartFirewall | scripts/setup-nftables.sh:70-183 | the whole recreated kernel state, step by step, keeping the invariant at each |
| Gateway.SessionManager.CreateSession | app/network/session_manager.py:19-81 | has exactly the effects of the new, refresh or move branch, in order; on success the returned row is active at the client's address with its MAC, and the address is in both sets |
| Gateway.SessionManager.MoveSession | app/network/session_manager.py:45-55 | old address withdrawn, new one committed, then opened with the stored upload rate |
| Gateway.SessionManager.ExpireSession | app/network/session_manager.py:83-89 | close first, then commit the status with whatever was waiting; fails exactly for an IPv6 row |
| Gateway.SessionManager.ExpireEach | app/network/session_manager.py:102-104 | the loop has exactly the effects of expiring the rows in order, ended by the first one that raises |
| Gateway.SessionManager.ExpireAll | app/network/session_manager.py:101-104 | fails exactly when a listed row is IPv6; otherwise the closed form of the sweep |
| Gateway.SessionManager.ExpireSessionsForRoom | app/network/session_manager.py:91-104 | on success nobody is active in the room |
| Gateway.SessionManager.ExpireOverdueSessions | app/network/session_manager.py:106-116 | on success no active session is overdue |
| Portal.Router.AuthRoom | app/portal/router.py:107-184 | refuses unverified or ambiguous guests and those at the device cap without any effect; otherwise has exactly create_session's effects with the chosen expiry and the guest row in the same commit |
| Portal.Router.AuthVoucher | app/portal/router.py:206-226 | exactly the effects of the session first and the use count after it |
| Portal.Router.PortalLogin | app/portal/router.py:41-85 | shows the one open session with its end, refuses when there are several, lets a bypassed device in for a day with its address in both sets, and shows the form otherwise; which page is shown is exact |
| Portal.Router.DisconnectDevice | app/portal/router.py:239-256 | kicks the active sessions under the validated MAC one after the other |
| Portal.Router.KickSession | app/admin/router.py:222-233 | expires any existing session whatever its status; an unknown id changes nothing |
| Portal.Scheduler.ExpireJob | app/network/scheduler.py:21-25 | on success no active session is overdue, and the world stays valid at every effect |
| Portal.Scheduler.CheckoutRoom | app/pms/webhook_router.py:17-19 | on success nobody is active in the room |
| Portal.Scheduler.PollCheckoutsJob | app/network/scheduler.py:28-55 | room after room, then the sync time in a commit of its own; a failed adapter call has no effect |
| Portal.Scheduler.BytesJob | app/network/scheduler.py:58-75 | counts wait in the transaction and are committed by the next expiry or at the end, exactly in this order |
| TrafficControl.ClassIdsDistinct | app/network/tc.py:18-22 | class ids, as numbers and as text, are equal only for equal addresses among those sharing the first two octets |
| TrafficControl.HeadIffOwnId | app/network/tc.py:244 | the pattern's head matches at a class block exactly when the block has this very number, never one it is a prefix of |
| TrafficControl.SearchFindsOwnBlock | app/network/tc.py:236-246 | on any listing of class blocks the search returns the count of the block with the number, and nothing if there is none |
| TrafficControl.GetBytesReadsOwnBlocks | app/network/tc.py:230-250 | get_bytes returns upload from ifb0 and download from the WAN device, each from the client's own block or 0 |
| RateLimit.Limiter.Check | app/core/rate_limit.py:11-19 | one more call is recorded, and it is admitted if and only if it is within the quota of its window among all calls ever made |
| RateLimit.Limiter.KeepsBound | app/core/rate_limit.py:11-19 | of all the calls a limiter has answered, in any closed interval of window_seconds at most 2 * max_attempts of one client were let through |
| RateLimit.AdmitsFirstOfWindow | app/core/rate_limit.py:14-19 | a call is admitted if and only if it is among the first max_attempts of its window, windows being fixed by that client's call times alone |
| RateLimit.SlidingBound | app/core/rate_limit.py:14-19 | in any closed interval of window_seconds at most 2 * max_attempts calls of a client are within quota |
| RateLimit.RunBound | app/core/rate_limit.py:11-19 | over any timed run of calls by any clients, in any closed interval of window_seconds, at most 2 * max_attempts calls of one client are admitted |
| RateLimit.SlidingBoundReached | app/core/rate_limit.py:14-19 | the bound is reached for every limit and window |
| RateLimit.NoWindowNoLimit | app/core/rate_limit.py:16-19 | with a window of zero or less every call is admitted, if one attempt is allowed at all |
| Framing.PiecesLossless | tools/fias-emulator/emulator/fias_server.py:498-501 | the pieces, none holding a CRLF, and the rest make up the stream |
| Framing.FrameRoundTrip | tools/fias-emulator/emulator/fias_server.py:498-501 | CRLF-free pieces and tail, framed, come back exactly |
| Framing.PiecesAppend | tools/fias-emulator/emulator/fias_server.py:495-499 | splitting what was left over with the next read is splitting the whole stream, even when a CRLF straddles the two |
| Framing.Drain | tools/fias-emulator/emulator/fias_server.py:498-515 | the inner loop ends, hands on every non-empty complete record in order and keeps the tail |
| Framing.HandleConnection | tools/fias-emulator/emulator/fias_server.py:474-515 | reads are taken until one is empty or a record stopped the handler; the records are those of the whole stream taken, the buffer its CRLF-free tail; both are a function of the reads |
| Framing.ChunkingIndependent | tools/fias-emulator/emulator/fias_server.py:481-501 | two splittings of one stream into non-empty reads and timeouts give a handler that keeps running the same records, those of the whole stream, and leave the same tail |
| Utf8.DecodeInverts | tools/fias-emulator/emulator/fias_server.py:504 | every text survives UTF-8 (RFC 3629), decoded strictly |
| Utf8.CrlfFromText | tools/fias-emulator/emulator/fias_server.py:498-499 | the bytes hold a CRLF exactly when the text does |
| Xml.EscapeIsEach | tools/fias-emulator/emulator/fias_server.py:221-229 | the five successive passes equal one substitution per character |
| Xml.EscapedHasNoMarkup | tools/fias-emulator/emulator/fias_server.py:221-229 | the output has no raw angle bracket or quote |
| Xml.UnescapeInverts | tools/fias-emulator/emulator/fias_server.py:221-229 | decoding the five predefined entities (section 4.6 of XML 1.0) returns every original |
| Xml.EscapeRoundTrip | tools/fias-emulator/emulator/fias_server.py:221-229 | read as an attribute value (section 3.3.3 of XML 1.0) the original comes back if and only if it has no tab, line end or illegal character |
| Xml.ValueOfSelf | tools/fias-emulator/emulator/fias_server.py:207-209 | unescaped text between quotes reads as itself if and only if it is plain and holds no ampersand or left angle bracket |
| GuestRecord.DateRoundTrip | app/pms/opera_fias.py:77-78 | a date printed with a two-digit year parses back if and only if its year is in 1969 to 2068 |
| Tags.QuoteSpoils | tools/fias-emulator/emulator/fias_server.py:207-209 | a field printed with a quote inside is never read back as itself |
| GuestRecord.GuestRoundTrip | app/pms/opera_fias.py:66-82 | parsing the printed record gives reservation, room, names and both dates back if and only if all texts are plain, reservation and room free of markup, and both years in 1969 to 2068 |
| GuestRecord.SpoiledGuests | tools/fias-emulator/emulator/fias_server.py:207-209 | a reservation with a bare ampersand or a departure in 2069 never comes back |
| GuestRecord.NotFoundParses | tools/fias-emulator/emulator/fias_server.py:198-200 | the not-found record parses to no guest |
| Tags.ElementOf | tools/fias-emulator/emulator/fias_server.py:77 | a printed tag parses to its name and to what its attribute text reads as, whatever stands in the values |
| FiasRecords.OneRecordIff | tools/fias-emulator/emulator/fias_server.py:498-501 | the server frames a request as one record, the printed text, if and only if no text in it holds a line end |
| FiasRecords.RequestRead | tools/fias-emulator/emulator/fias_server.py:76-88 | a request without quotes in its texts is read as its fields, or not at all if some value does not read |
| FiasRecords.RequestRoundTrip | app/pms/opera_fias.py:84-87 | the server reads the room and the name that were asked for if and only if both are plain and free of markup and quotes |
| FiasRecords.FindGuest | tools/fias-emulator/emulator/fias_server.py:231-243 | an active guest of the room whose name matches the pattern, or none if there is none |
| FiasRecords.LikeWithoutWildcards | tools/fias-emulator/emulator/fias_server.py:237 | a name without wildcards matches exactly itself, ASCII case aside |
| FiasRecords.DepartingRooms | tools/fias-emulator/emulator/fias_server.py:245-255 | the rooms of the active guests who depart on that day |
| FiasRecords.AnsweredIff | tools/fias-emulator/emulator/fias_server.py:65-99 | without an injected failure a request is answered if and only if its printed text parses to a record with a handler and, for a departure query, somebody departs on the day read |
| FiasRecords.GuestQueryUnderstoodIff | app/pms/opera_fias.py:84-87 | for a room and a name without quotes, the query parses if and only if each reads as an attribute value: legal characters, no left angle bracket, every ampersand a reference |
| FiasRecords.AmpersandUnread | app/pms/opera_fias.py:84-87 | the query for the name `A&B` does not parse |
| FiasRecords.RoomQueryFindsNobody | app/pms/opera_fias.py:89-92 | a query by room alone gets the not-found answer in a house where everybody has a name |
| FiasRecords.ReadTagConforms | tools/fias-emulator/emulator/fias_server.py:76-88 | the XML reader of this model is one of the readers the theorems speak of |
| FiasClient.QueueIsFraming | tools/fias-emulator/emulator/fias_server.py:481-501 | over every run the records handled and still to be handled are exactly the framing of the bytes the client wrote, and the handled ones a first part of it once the connection is closed |
| FiasClient.FreeLockMeansQuiet | app/pms/opera_fias.py:44-64 | over every run of requests at most one record of which can be answered: with the lock free no reply is on its way nor will be, and only the lock's owner is mid-exchange |
| FiasClient.FreeLockMeansEmpty | app/pms/opera_fias.py:44-64 | over every run of requests without line ends: with the lock free both directions are empty, and at most one record or reply is ever on its way |
| FiasClient.EveryReplyIsItsOwn | app/pms/opera_fias.py:56-64 | over every run of requests at most one record of which can be answered, with any injected failure and any closing, every read returns exactly one reply, to the reader's own request, or nothing because the connection is closed, and no request is logged twice |
| FiasPairing.PairingIff | app/pms/opera_fias.py:44-64 | on every run of a query and heartbeats, with every failure the server may inject, dropped connections and logouts included, each read returns the one reply to its own request, or nothing because the connection is closed: if and only if at most one record of the query can be answered |
| FiasPairing.OneReplyEach | app/pms/opera_fias.py:44-64 | over every run without a dropped connection of requests with at most one answerable record and no logout, every read returns exactly its own reply and the connection stays open |
| FiasPairing.OneReplyEachIff | tools/fias-emulator/emulator/fias_server.py:183-192 | with no connection dropped, every read returns exactly its own reply on every run of a query and heartbeats if and only if at most one record of the query can be answered and none is a logout |
| FiasPairing.LogoutInName | app/pms/opera_fias.py:84-87 | a faithful name with a logout record behind it on the next line: the query has one answerable record and pairs up, but on some run somebody reads no reply |
| FiasPairing.TwoRecordsInOneName | app/pms/opera_fias.py:84-87 | a name that ends its tag and begins another on the next line is framed as two queries, and pairing fails |
| FiasClient.GuestQueryEndToEnd | app/pms/opera_fias.py:84-87 | over every run of requests at most one record of which can be answered, a completed query for a faithful room and name has no reply only on a closed connection and then gives nothing; otherwise, without an injected failure, no guest if the server has none of that room and name, and else the guest found, if and only if it is printable |
| FiasSilence.BlockedExactlyWhenDead | app/pms/opera_fias.py:60-63 | after any run, whatever was asked and whatever failed, no exchange can ever end again, with or without a reply, if and only if whoever holds the lock or greets waits on an open connection for what nothing on its way can bring, neither a reply nor a logout |
| FiasSilence.SilenceIff | tools/fias-emulator/emulator/fias_server.py:76-99 | over every run of one-record requests, once the outstanding one is handled without an injected failure the connection is dead for good if and only if it is one that is not answered |
| FiasSilence.SilenceIffTexts | tools/fias-emulator/emulator/fias_server.py:76-99 | if that request has no quotes: dead if and only if one of its texts does not read as an attribute value, or it asks for the departures of a day on which nobody departs |
| FiasSilence.NeverBlocked | tools/fias-emulator/emulator/fias_server.py:65-99 | over every run without injected failures of one-line requests the server parses, the connection is never dead as long as somebody departs whenever a departure query is handled |
| FiasSilence.NeverBlockedByTexts | app/pms/opera_fias.py:84-92 | the same by what the client can check before it asks: texts without line ends or quotes that read as attribute values |
| FiasSilence.ALogoutEndsTheWait | tools/fias-emulator/emulator/fias_server.py:466-470 | a query whose name goes on with a logout on the next line does not block, whether or not its first record parses: the connection ends |
| FiasSilence.OneUnansweredBlocks | app/pms/opera_fias.py:60-63 | one request that is not answered leaves every continuation without a completed exchange and the lock held |
| FiasSilence.AnEmptyDayBlocks | tools/fias-emulator/emulator/fias_server.py:176-177 | one checkout poll for a day on which nobody departs does that |
| FiasSilence.AnAmpersandBlocks | tools/fias-emulator/emulator/fias_server.py:76-80 | one guest query for the name `A&B` does that, whoever is in the house |
| EnvFile.ReadIsWellFormed | installer/utils/config.py:94-110 | whatever the file holds, what is read has trimmed one-line keys without `=` or leading `#`, and trimmed one-line values |
| EnvFile.SortedLists | installer/utils/config.py:82 | the lines are those of all keys, in strictly increasing order |
| EnvFile.WriteReadRoundTrip | installer/utils/config.py:74-110 | reading the written file gives the configuration back if and only if it is well formed |
| EnvFile.UpdateReadsAsOverride | installer/utils/config.py:112-119 | after an update the file reads as the old configuration overridden by the updates if and only if the updates are well formed |
| EnvFile.ConfigFile.WriteEnvFile | installer/utils/config.py:74-85 | the loop writes the header and one line per item in sorted order |
| EnvFile.ConfigFile.ReadEnvFile | installer/utils/config.py:94-110 | the loop collects the entries, later lines overriding earlier ones; a missing file reads as empty |
| EnvFile.ConfigFile.UpdateEnvFile | installer/utils/config.py:112-119 | the file is rewritten from the old entries overridden by the updates |
| RedisConf.MatchIsHit | installer/installer/redis.py:110-111 | a line belongs to a setting exactly when it starts with the key, or the commented key, and a space |
| RedisConf.PolicyIsNotCaptured | installer/installer/redis.py:99-115 | a maxmemory-policy line is never rewritten as maxmemory |
| RedisConf.OwnLine | installer/installer/redis.py:110-112 | the line written for a setting is recognised again if and only if its value is not blank |
| RedisConf.IdempotentIff | installer/installer/redis.py:93-126 | rewriting the file twice equals rewriting it once if and only if no value is blank and no added line is glued to an unterminated last line |
| RedisConf.UnendedFileGrows | installer/installer/redis.py:107-122 | with the default values, the file `port 6379` without its newline is changed again by the second run |
| RedisConf.EverySettingInForceIff | installer/installer/redis.py:107-122 | every setting's line is in the file afterwards if and only if nothing was glued |
| RedisConf.LinesCarryValues | installer/installer/redis.py:107-115 | when no value is blank and nothing is glued, every line of a setting carries the desired value |
| RedisConf.OtherLinesKept | installer/installer/redis.py:107-117 | when no value is blank and nothing is glued, all other lines keep content and order |
| RedisConf.RewriteLines | installer/installer/redis.py:97-122 | the two loops compute the rewritten lines followed by those of the missing settings |
| RedisConf.ConfigFile.ConfigureRedis | installer/installer/redis.py:87-126 | the file becomes the rewritten one, which is a fixed point exactly under the idempotence condition |

## Left out

- Interleaving of portal requests and scheduler jobs at their await points: each operation is a sequence of effects that may be cut off anywhere, but not mixed with another; only the FIAS lock is modelled with interleaving.
- Row order of SQL results: the sweeps go through the table in row order.
- Kernel side: tc filters, real byte counters and the hexadecimal class ids newer tc versions print.
- OperationSafety.OperationDisciplined: the deletes of an operation work; failing ones are modelled for the end of a single session, in FailedDeletes, not for moves or within longer runs.
- The IP addresses are IPv4 or IPv6 as a whole; IPv4-mapped IPv6 text and malformed addresses are not distinguished.
- Download limits of a reused session: they are reapplied as 0 by the code, so nothing is claimed about them.
- The MAC-bypass row lookup, the guest verification, the room policy and the adapter's checkout list are parameters; the database columns of the bypass list, X-Forwarded-For handling and HTTP itself are not part of the model.
- Portal.Scheduler.PollCheckoutsJob: the sync time is always written after the last room; that the adapter record might be missing is not modelled.
- RateLimit.Limiter.Check: INCR and EXPIRE are one step, so a crash between the two is not modelled.
- NAT decisions are made on the first packet of a connection only; retransmissions and connection tracking time-outs are not modelled.
- Framing.HandleConnection: records that make the handler raise are not modelled; a record after a logout in the same read is handed on, as in the code.
- GuestRecord.GuestRoundTrip: the XML reader of the client covers documents that are one empty-element tag; declarations, comments and nested elements are not modelled, and name characters are ASCII. On the server's side any reader is allowed that agrees with it on printed tags.
- FiasClient.EveryReplyIsItsOwn: a read never returns a part of a reply, no task is cancelled, and the connection is closed by the server only, after a logout record or an injected drop: the client's own disconnect, which nothing calls, and a broken network are no steps. Departure answers with several rooms, which the client cannot parse as one document, are not interpreted.
- FiasRecords.AnsweredIff: the tag of a request is taken to keep its handler or have none, which holds of XML readers; the emulator's name match is SQLite's.
- EnvFile.ConfigFile.WriteEnvFile: I/O errors and file permissions are not modelled.
- RedisConf.IdempotentIff: values with line ends inside are excluded; the installer only uses the defaults, which have none.
- The other PMS adapters, the analytics job, admin pages, templates, voucher code generation, PDF and QR output, the installer wizard and migrations: input, output or easy members.
