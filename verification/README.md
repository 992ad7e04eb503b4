# Node registration, text codecs, byte streams and measurements

This project models the hard core of a LibreSpeed-style speed test service, whose center exists as a Go program
and as an older Python application, and proves properties of it over every input and every run.

* **Registration and key rotation.** A center keeps a table of nodes. A node agent reads its old key from
  `node.ini`, offers it when it registers, and writes back the key it is given. The network loses, delays and
  duplicates messages; agents crash anywhere; administrators delete, disable and re-register nodes; health checks
  and speed tests read a row, measure for a while and write back later. `NodeTable` is the table as a value,
  `Store` the object whose methods are proved to compute it, `KeyLifecycle` the theorems over all sequences of
  store operations, `PyRegister` and `PyRuns` the Python center and its runs, `Backoff` the retry loops, `NodeAgent`
  the agent, `Protocol` the interleaved step system with its invariant, `SteadyState`, `Settling` and `Restarts` what
  an agent can rely on, `WebHandlers` the handlers.
* **Text and bytes that must undo each other.** `Text` and `NodeIni` (writer and reader), `AgentFile` (the node key
  in a saved file, as the loader and as the health check read it), `CryptoBox` and `Octets` (HKDF, keystream, seal
  and unseal), `DotEnv`.
* **Byte streams.** `ByteStreams`: the repeating reader, the four senders, the download clamp and the upload cap in
  both languages. `Numbers` holds minimum and sum.
* **Measurements.** `Measurements`: sampling, smoothing, peak and ping statistics.

`dafny verify dfyconfig.toml` checks everything.

## What is assumed

* The key hash has no collision among the keys that a run considers (`KeyLifecycle.Config.keys`). These contain
  every generated key and every key that anybody offers.
* `GenerateKey` never returns a key that was issued before, and its keys have the shape of 32 bytes in unpadded
  URL-safe base64. `KeyLifecycle.Admissible` states both.
* `SECRET_KEY` does not change and unsealing undoes sealing. `CryptoBox.SealingCanBeUndone` proves the latter for
  the Python code; for the Go center, whose `sealedbox` rests on AES-GCM, it is an assumption.
* Each public method of the store is one atomic step, because it runs under one mutex; SQLite statements are
  atomic and AUTOINCREMENT never hands out an id twice.
* The hash, HMAC, UTF-8, base64, address validation, clock readings and random bytes are parameters.
  Times and rates are real numbers.
* A database error inside a handler is seen by the agent as a failed attempt, that is, as a lost request.

## Results with a condition

* The schema does not enforce different key hashes. Without them the owner lookup may find another row, and a key
  that should be kept is rotated; `Store.NodeStore.RegisterOrReuse` is therefore exact given `UniqueHashes`, and
  `KeyLifecycle.NextKeepsInv` proves that every operation keeps `UniqueHashes`. `PyRuns` proves the same of the
  Python center, whose query would raise instead, so that in its runs `one_or_none` never sees two rows.
* `node.ini` gives back what was saved if and only if, for each non-empty field: the key has no line feed and no `=`,
  is trimmed, does not start with `#` or `;`, and does not look like a section header together with its value; the
  value trims to what its first line trims to; and no line of the entry reaches 64 KiB (`NodeIni.RoundTrip`, for
  every map). A key that starts with `[` is harmful only if its value ends with `]`; an empty key does no harm.
* A saved file cannot be read at all if and only if one of its entries has a line of 64 KiB, although it was written
  without complaint (`NodeIni.OverlongSaved`). Writing it leaves an unreadable file exactly in that
  case (`Restarts.LongEntryIsFatal`), and the agent then never boots again (`Restarts.StuckForever`). A NODE_NAME of 65536 letters does it (`NodeAgent.LongName`).
* A line feed in a setting puts more lines into the file, and the reader takes them for what they look like. A restart
  offers the written key if and only if no entry is overlong, the lines behind the first of NODE_ADDRESS and NODE_NAME
  leave the section open (or close it only after giving the very same key), and those of NODE_PROTOCOL and the time
  stamp give no other key (`NodeAgent.WrittenKeyIsOffered`, condition `NodeAgent.ReadsBack`). With
  NODE_NAME = "a\n[x]" no key is read back, while the health check still finds the written one
  (`NodeAgent.SectionInName`); every restart then rotates the key (`Restarts.RestartKeepsKey`). With settings on one
  line, only their length matters (`NodeAgent.OneLineReadsBack`).
* The health check's `sed` knows no sections and no length limit. With fields on one line it finds the key without
  leading white space, while the loader also trims the end: they agree if and only if what `sed` finds is trimmed
  (`AgentFile.HealthCheckAgrees`).
* If an attempt is overtaken by its retry, the key that the agent wrote down stays the row's key if and only if the
  retry's offer was kept, or happened to be the key generated for it (`Restarts.OvertakenAttempt`). A first
  registration is safe only one attempt at a time. The same coincidence, an ini file that contains a key before it
  is generated, is the only exception in `Restarts.CrashRotatesSameRow`.
* The Go upload cap is exact for every body if and only if the cap is not the largest int64: there, the limit
  `max + 1` wraps around and every upload counts as empty (`ByteStreams.CapExactUnlessMax`).
* The Python upload loop decides as its cap promises if and only if the stream has a chunk or the cap is not negative:
  without any chunk nothing is compared (`ByteStreams.PyHandleUpload`). Starlette, which is not part of this model,
  ends every stream with an empty chunk, so that the exception does not arise there.
* The Go node ignores a requested size beyond int64 and falls back to 10 MB, the Python node clamps it: the two agree
  if and only if the size is an int64, or it is above and the cap is at most 10 MB, or the cap is at most one byte
  (`ByteStreams.NodesAgree`).
* In the Python center a re-registration that changes no attribute keeps the old `updated_at`; the Go center
  always writes a new one. Everything else about registration agrees (`PyRegister.SameTransition`). After a failed
  health check the Python center keeps the last latency, the Go center clears it (`PyRegister.PyHealthNoted`).
* The ini writer's comment says that skipping empty values matches the Python writer; that one skips only `None`.
  The model follows the Go code.

## Model

| member | source | states |
|---|---|---|
| NodeTable.ApplyWellFormed | internal/store/store.go:89-118 | every public method keeps the primary key, the AUTOINCREMENT bound and UNIQUE(address, port), for any keys and hashes |
| NodeTable.ApplyKeepsIdentity | internal/store/store.go:253-408 | an id below the counter that is in the table after an operation was there before, with the same endpoint and creation time: ids never come back and endpoints never change |
| NodeTable.RegisterFrame | internal/store/store.go:364-407 | a registration leaves every row at another endpoint exactly as it was |
| NodeTable.RegisterOutcome | internal/store/store.go:330-408 | after success the reported row is the one row at the endpoint, an existing row keeps its id, its hash is the hash of the returned key, and the key was reused exactly if the offered key was the row's key |
| NodeTable.RegisterDescribes | internal/store/store.go:346-407 | which columns a registration writes: the description and enabled always, key columns only with a new key, health record and creation time of an existing row never |
| NodeTable.ApplyFrame | internal/store/store.go:253-408 | an operation leaves every row that it does not name exactly as it was |
| NodeTable.HealthWrites | internal/store/store.go:295-301 | a health result reaches five columns with the given values; whether the node is enabled is not among them |
| NodeTable.EnabledWrites | internal/store/store.go:266-267 | enabling or disabling reaches two columns; description, key and health record stay |
| Store.NodeStore.FindByAddressPort | internal/store/store.go:228-238 | finds the row at the endpoint, or none if there is none |
| Store.NodeStore.FindByKeyHash | internal/store/store.go:240-250 | returns some row with the hash, or none if no row has it |
| Store.NodeStore.InsertRow | internal/store/store.go:366-374 | the insert adds one row under the next id, or fails on a taken endpoint and changes nothing |
| Store.NodeStore.SetEnabled | internal/store/store.go:253-272 | changes enabled and updated_at of that row and no other column, returns the new row; a missing id is ErrNotFound and changes nothing |
| Store.NodeStore.Delete | internal/store/store.go:275-284 | removes that row and keeps the id counter; a missing id is ErrNotFound |
| Store.NodeStore.UpdateHealthResult | internal/store/store.go:287-312 | writes exactly the health columns and updated_at by id, last_seen only when asked, no other column and no other row; no affected row is ErrNotFound and changes nothing |
| Store.NodeStore.RegisterOrReuse | internal/store/store.go:330-408 | the two lookups and the id test amount to one comparison of hashes when hashes differ, and the insert never meets the UNIQUE constraint |
| KeyLifecycle.NextKeepsInv | internal/store/store.go:330-408 | every operation keeps: all hashes different, each row made from an issued key, sealed copies unseal to that key |
| KeyLifecycle.NextUnique | internal/store/store.go:118 | no two rows ever share a hash, although the schema has only a plain index on it |
| KeyLifecycle.NoNewMatch | internal/store/store.go:275-284 | a row that an already issued key opens after a step was opened by it before and is the same registration |
| KeyLifecycle.RunInv | internal/store/store.go:330-408 | the invariant holds along every run, and issued keys and the id counter only grow |
| KeyLifecycle.EveryRowHasOneKey | internal/store/store.go:330-408 | in every state of every run from an empty table, each row belongs to exactly one key and that key to exactly one row |
| KeyLifecycle.DeadKeysStayDead | internal/store/store.go:275-284 | a key rotated out, or deleted with its row, never matches any row again |
| KeyLifecycle.KeyLifeIsOneStretch | internal/store/store.go:330-408 | a key that opens rows at two moments opens the same row, id, endpoint and creation time, at every moment between |
| KeyLifecycle.DeadKeyIsNeverReused | internal/store/store.go:339-362 | offering a dead key is answered with a key never issued before, reused = false |
| KeyLifecycle.WhatKillsAKey | internal/store/store.go:364-407 | a key survives a step if and only if the step neither deletes its row nor registers its endpoint with another key and succeeds in sealing |
| KeyLifecycle.KeepsKeyInMap | internal/store/store.go:339-347 | the hash test holds exactly if the endpoint's key in the abstract map is the offered one |
| KeyLifecycle.ReplyRefines | internal/store/store.go:330-408 | the reply is the one the map from endpoints to keys gives; the only failure is sealing |
| KeyLifecycle.StepRefines | internal/store/store.go:275-408 | one operation on rows with ids and two lookups is one step of the map: keep the key if it was offered, else replace it |
| KeyLifecycle.RunRefines | internal/store/store.go:275-408 | every run of the table is a run of the map with the same replies |
| PyRegister.Row.Redescribe | app/routers/register.py:58-63 | the matching row gets its new description in place and keeps its key; nothing changed means no new timestamp |
| PyRegister.Row.Rekey | app/routers/register.py:84-95 | the existing row gets description and key in place |
| PyRegister.Session.OneOrNone | app/routers/register.py:52 | none, the only row, or MultipleResultsFound exactly if there are two |
| PyRegister.Session.Query | app/routers/register.py:52 | the endpoint query can never see two rows |
| PyRegister.Session.QueryHash | app/routers/register.py:56 | the hash query raises only if two rows share a hash |
| PyRegister.Session.OwnerDecides | app/routers/register.py:57 | the owner and target id test is the hash comparison |
| PyRegister.Session.GetRow | app/routers/nodes.py:50-54 | finds the row object of an id, or none if there is none |
| PyRegister.Session.SetEnabled | app/routers/nodes.py:87-102 | enables or disables that row in place, with a new timestamp only if something changed; a missing id changes nothing |
| PyRegister.Session.NoteHealth | app/routers/nodes.py:126-138 | writes a check's result in place, column by column; an error keeps the last latency and nothing else but the timestamp changes |
| PyRegister.Session.Delete | app/routers/nodes.py:105-109 | removes that row and keeps the id counter |
| PyRegister.Session.Reuse | app/routers/register.py:57-65 | the matching row is redescribed and its key kept, as the reference transition says |
| PyRegister.Session.RegisterOrReuse | app/routers/register.py:52-95 | over mutable row objects, the same reply and table as the reference transition; different hashes suffice, and hold in every run by PyRuns.PyHashesUnique |
| PyRuns.PyNextKeepsInv | app/routers/register.py:52-95 | registering, deleting, enabling and health results of the Python center keep all hashes different, each row made from an issued key, and sealed copies honest |
| PyRuns.PyHashesUnique | app/routers/register.py:56 | in every state of every run from an empty database, all hashes differ |
| PyRuns.RegisterInRun | app/routers/register.py:52-95 | a registration at any step of any run never raises MultipleResultsFound and gives the outcome of the transition |
| PyRuns.PyDeadKeysStayDead | app/routers/nodes.py:105-109 | in the Python center too, a dead key never matches a row again |
| PyRegister.SameTransition | app/routers/register.py:52-95 | both implementations give the same reply, ids, keys and table, except the timestamp of a row in which nothing changed |
| PyRegister.PyTimestamp | app/models.py:52-55 | a registered row gets the new timestamp, unless nothing else in it changed |
| PyRegister.PyApplyWrites | app/routers/nodes.py:87-138 | what enabling, disabling and health results write in the Python center, column by column |
| PyRegister.PyApplyFrame | app/routers/nodes.py:87-138 | rows that an operation of the Python center does not name stay exactly as they are |
| Backoff.RegisterWithRetries | cmd/node/register.go:88-132 | returns the first success, makes max(1, retries) attempts otherwise, and sleeps exactly min(2^(k-1), 16) seconds after the k-th failure but the last |
| Backoff.PyRegisterWithRetries | app/node_register_client.py:71-109 | the same specification for the closed form |
| Backoff.RetriedUnique | app/node_register_client.py:88-107 | the specification determines result and sleeps, so the two loops agree attempt by attempt |
| Backoff.TotalSleep | cmd/node/register.go:99-128 | n attempts sleep 2^(n-1) - 1 seconds for n up to 6, and 31 + 16(n - 6) beyond |
| NodeAgent.Agent.ResolveNodeKey | cmd/node/main.go:59-136 | explicit key first; otherwise every attempt carries the trimmed key of the ini file, the result is the trimmed key of the first success, and the file changes only then |
| NodeAgent.WrittenKeyIsOffered | cmd/node/main.go:81-125 | for any settings, a restart offers the key that was written if and only if the settings let it be read back |
| NodeAgent.OneLineReadsBack | cmd/node/main.go:113-122 | settings on one line let the key be read back if and only if no entry reaches 64 KiB |
| NodeAgent.LongName | internal/config/nodeconfig.go:52 | a name of 65536 letters makes the written file unreadable |
| NodeAgent.SectionInName | internal/config/nodeconfig.go:52 | the name "a\n[x]" hides the written key from the agent, but not from the health check |
| NodeAgent.GeneratedKeySurvives | internal/security/security.go:25-31 | generated keys survive every trim and fit on a line |
| NodeAgent.FieldValues | cmd/node/main.go:113-122 | which setting is written under which name |
| Text.ItoaIs | cmd/node/main.go:114-119 | numbers are written in decimal digits that stand for them |
| NodeAgent.HealthCheckReadsWrittenKey | docker/node-healthcheck.sh:11 | for any settings, the health check reads the written key if and only if it is one line and no stray line behind it gives another |
| Protocol.StepKeepsInv | internal/store/store.go:330-408 | every event of the interleaved system keeps the store invariant, the numbering of messages, and that snapshots held by handlers are of the same registration as any row still under their id |
| Protocol.ReachableInv | cmd/web/nodes.go:126-141 | the invariant holds in every reachable state, whatever the ini files said at the start |
| Protocol.DeadInWorld | internal/store/store.go:330-408 | a dead key stays dead whatever the network, the agents and the administrators do |
| Protocol.LateWriteIsHarmless | cmd/web/nodes.go:150-185 | whatever landed between a handler's read and its write, the write hits the same registration at the same endpoint and changes its five health columns only, not whether it is enabled; or it changes nothing |
| SteadyState.OfferedKeyIsKept | internal/store/store.go:339-362 | a registration that offers the row's key gets that row and key back, reused, and issues nothing |
| SteadyState.SteadyStep | cmd/node/main.go:81-125 | boot, retry, loss, duplication, late service, receipt, write, failed write and crash all keep the steady state, the write if the settings let the key be read back |
| SteadyState.PersistStaysSteady | cmd/node/main.go:112-125 | a write keeps the steady state if and only if the settings let the key be read back |
| SteadyState.SteadyForever | cmd/node/main.go:81-136 | once the ini file holds the row's current key, any sequence of crashes and restarts on any network keeps row id and key |
| SteadyState.SteadyAnswers | internal/store/store.go:339-362 | every processed request for that endpoint, copies included, is answered with that id and key, reused = true, and no key is issued |
| Settling.SettledForever | cmd/node/register.go:99-128 | with attempts one at a time and no other writer, every pending answer stays current |
| Settling.SuccessfulReturnIsCurrent | cmd/node/register.go:99-128 | the key that an attempt finally brings back is the row's current key, whichever earlier replies were lost |
| Settling.PersistEntersSteady | cmd/node/main.go:112-125 | writing the ini file after such a return enters the steady state if and only if the settings let the key be read back |
| Settling.InstalledForGood | cmd/node/main.go:59-136 | from the first boot over a lossy network to any later moment: the row, its id and the key written then are still the ones in use |
| Settling.OneRowPerEndpoint | internal/store/store.go:364-407 | until it is deleted, a row stays the only row at its endpoint under every event |
| Settling.EarlierReplySurvives | cmd/node/register.go:99-128 | of two processed attempts with the same offer, the first reply is still current if and only if the offer was kept or was the very key then generated |
| Settling.NotKeptTwice | internal/store/store.go:339-347 | an offer refused once is refused again after the rotation, unless it was the very key then generated |
| Restarts.RestartOutcome | cmd/node/main.go:81-125 | one restart, with anything going on elsewhere: same row, and the key is kept if and only if the agent's file offers it; otherwise the old key is dead |
| Restarts.RestartKeepsKey | cmd/node/main.go:112-125 | after a write, a later restart keeps the key if and only if the settings let it be read back |
| Restarts.LongEntryIsFatal | internal/config/nodeini.go:51-53 | a write leaves an unreadable file if and only if an entry has a line of 64 KiB |
| Restarts.StuckForever | cmd/node/main.go:81-85 | an agent with an unreadable file never boots again |
| Restarts.CrashRotatesSameRow | internal/store/store.go:394-407 | over a run: after a commit that was never written down the agent must crash before it boots again, and its next processed attempt finds the same single row, whose key is rotated once more |
| Restarts.MustHaveCrashed | cmd/node/main.go:59-136 | an agent that boots after it was running has crashed in between |
| Restarts.OvertakenAttempt | cmd/node/register.go:99-128 | over a run: when an attempt is processed after its retry was answered and written down, the file's key is still current if and only if the retry's offer was kept or was the very key then generated; otherwise it is dead |
| WebHandlers.HandleRegister | cmd/web/register.go:24-125 | blank name 422, refused address 400, failed sealing of a new key 500, each without effect; self-registration with the key of the row at the resolved endpoint gets that row and key back, reused; everything else gets the new key; the row carries the request's name, the resolved protocol and the metadata; other endpoints are untouched |
| WebHandlers.ParamsAnswer | cmd/web/register.go:74-99 | the parameters that the handler builds make the store answer so: what is kept, issued, sealed and described |
| WebHandlers.HandlerServes | cmd/web/register.go:74-99 | serving an agent's request through the handler is exactly the step of the protocol that the run theorems are about |
| WebHandlers.HandlerIsAdmissible | cmd/web/register.go:74-99 | the parameters that the handler builds meet every assumption of the run theorems |
| WebHandlers.ResolvedKeyMatches | cmd/web/nodes.go:126-141 | in every reachable state and for every snapshot, the resolved key is the one key of the snapshot's hash whichever branch ran, and unsealing never fails |
| WebHandlers.HandleSetEnabled | cmd/web/nodes.go:84-106 | statuses of enabling and disabling, and that only enabled and updated_at change |
| WebHandlers.HandleDeleteNode | cmd/web/nodes.go:108-124 | statuses and effect of deleting |
| WebHandlers.BeginHealthCheck | cmd/web/nodes.go:150-170 | order of the error cases, disabled nodes refused for speed tests only; the body's key, or without one the header's, is used if its hash is the row's, and otherwise the unsealed copy |
| WebHandlers.FinishHealthCheck | cmd/web/nodes.go:172-185 | the write after a measurement, in whatever state the store then is: the values of the health columns of that id, no other column and no other row, nothing if the row is gone |
| NodeIni.LoadNodeState | internal/config/nodeini.go:16-58 | the scanner loop computes the line-by-line reader, missing file, missing section and overlong line included |
| NodeIni.ParseIs | internal/config/nodeini.go:31-49 | which lines are comments, headers and pairs, and that a pair splits at the first equals sign |
| NodeIni.ReaderIs | internal/config/nodeini.go:26-57 | the section counts as found if some line is [node]; a key has the value of its last definition behind a [node] header with no other header between |
| Text.ScanRawIs | internal/config/nodeini.go:29-31 | the scanner hands out the lines before the first overlong one, each without one final carriage return |
| Text.ByteLenIs | internal/config/nodeini.go:29 | the scanner's limit counts the bytes of UTF-8 |
| Text.CutIs | internal/config/nodeini.go:45 | cutting splits at the first occurrence, and only if there is one |
| NodeIni.SaveNodeState | internal/config/nodeini.go:70-83 | the text is a function of the map alone: one entry for each non-empty field, sorted |
| NodeIni.CollectKeys | internal/config/nodeini.go:70-76 | in whatever order the map is iterated, exactly the keys with non-empty values, each once |
| NodeIni.SortedUnique | internal/config/nodeini.go:77 | a set of keys has one sorted listing |
| NodeIni.ParsedKeyIsPlain | internal/config/nodeini.go:45-49 | whatever line a key was read from, it is trimmed, without `=`, and no comment |
| NodeIni.EntryRoundTrip | internal/config/nodeini.go:79-83 | a written entry reads back as its key and trimmed value if and only if the key is acceptable |
| NodeIni.RoundTrip | internal/config/nodeini.go:26-83 | for every map, load(save(m)) is the non-empty part of m, trimmed, if and only if each entry can be carried |
| NodeIni.OverlongSaved | internal/config/nodeini.go:29-83 | a saved file fails to load if and only if one of its entries has a line that reaches the scanner's limit |
| NodeIni.OverlongLineFails | internal/config/nodeini.go:29-53 | scanning any lines fails if and only if one of them reaches the limit |
| NodeIni.LoadSaved | internal/config/nodeini.go:29-58 | otherwise loading is one pass over the lines of the saved entries, stray lines of multi-line values included |
| AgentFile.LoadedNodeKey | internal/config/nodeini.go:26-58 | which key the loader finds in a saved file, for any field values: its own first line if the stray lines before it leave the section open, unless a later one defines it again |
| AgentFile.HealthCheckReads | docker/node-healthcheck.sh:11 | which key `sed` finds in a saved file, for any field values |
| AgentFile.SedIs | docker/node-healthcheck.sh:11 | which lines the substitution matches and what it leaves of them |
| AgentFile.SedLastIs | docker/node-healthcheck.sh:11 | the last matching line counts |
| AgentFile.HealthCheckAgrees | docker/node-healthcheck.sh:11 | with fields on one line, `sed` and the loader agree if and only if what `sed` finds is trimmed |
| CryptoBox.HkdfLoop | app/crypto_box.py:37-46 | the loop computes the recursive definition of sections 2.2 and 2.3 of RFC 5869 for every length up to 255 * 32, and fails beyond |
| CryptoBox.HkdfOctet | app/crypto_box.py:37-46 | octet by octet, the output is T(1), T(2), ... of section 2.3 of RFC 5869, for any list of octet strings that satisfies its chain of HMACs |
| CryptoBox.HkdfPrefixStable | app/crypto_box.py:37-46 | a shorter output is a prefix of a longer one |
| CryptoBox.KeystreamLoop | app/crypto_box.py:54-60 | the loop computes the counter keystream with exactly the requested length, up to the 8-byte counter |
| Octets.BigEndianIs | app/crypto_box.py:58 | the counter's encoding has its size and stands for its number |
| CryptoBox.CountersDiffer | app/crypto_box.py:58 | below 2^64, different counters give HMAC different inputs |
| CryptoBox.KeystreamOctet | app/crypto_box.py:54-60 | octet k of the pad is octet k mod 32 of HMAC over the nonce and the eight octets that stand for k div 32 |
| CryptoBox.KeystreamPrefixStable | app/crypto_box.py:54-60 | a shorter keystream is a prefix of a longer one |
| CryptoBox.XorTwice | app/crypto_box.py:63-64 | combining twice with the same pad gives the data back |
| CryptoBox.Seal | app/crypto_box.py:67-76 | version, nonce, tag and ciphertext in that layout; an empty secret is refused |
| CryptoBox.Unseal | app/crypto_box.py:79-101 | every failure in the order of the code, otherwise the opened text |
| CryptoBox.DerivedKeys | app/crypto_box.py:49-51 | the encryption key is T(1) and the authentication key T(2), keyed by HMAC(nonce, secret) |
| CryptoBox.SealedFormat | app/crypto_box.py:67-76 | a sealed blob in terms of HMAC alone: header, nonce, tag over the rest, and each octet of the text combined with its octet of the pad |
| CryptoBox.BadHeader | app/crypto_box.py:88-90 | what is refused for its format |
| CryptoBox.Refused | app/crypto_box.py:96-101 | what is refused for its tag, before anything is decrypted |
| CryptoBox.OpenSealed | app/crypto_box.py:67-101 | unseal(seal(p)) = p for every HMAC function, secret, nonce and text |
| CryptoBox.SealOpened | app/crypto_box.py:79-101 | an accepted blob is byte for byte the sealing of its own output under its own nonce |
| CryptoBox.OpensExactlySealings | app/crypto_box.py:67-101 | a blob opens to a text if and only if it is a sealing of that text |
| CryptoBox.SealingCanBeUndone | app/crypto_box.py:67-101 | base64 included, what registration assumes of sealing holds of this code |
| DotEnv.LoadDotEnv | internal/config/dotenv.go:11-38 | each variable ends as its prior value, else its first definition in the file, else unset |
| DotEnv.ParseIs | internal/config/dotenv.go:19-34 | which lines define something: key and value around the first equals sign, trimmed, not in a comment, key not empty |
| DotEnv.QuotesStripped | internal/config/dotenv.go:29 | all quotes at both ends of a value are taken off and nothing else |
| DotEnv.DefinesIs | internal/config/dotenv.go:36 | a parsed definition counts unless it has a NUL character, which the environment refuses |
| DotEnv.FirstDefinitionIs | internal/config/dotenv.go:33-36 | the definition used is the one that no earlier line gives |
| DotEnv.LoadedUnique | internal/config/dotenv.go:18-38 | that specification determines the environment |
| DotEnv.LoadingTwice | internal/config/dotenv.go:18-38 | loading the same file again changes nothing |
| ByteStreams.RepeatReader.Read | cmd/web/nodeclient.go:224-240 | fills min(buffer, remaining) bytes with the next stretch of the repeated chunk, leaves the rest of the buffer alone, and reports the end exactly when nothing remains |
| ByteStreams.ReadAll | cmd/web/nodeclient.go:218-240 | under any sequence of buffer sizes the output is chunk[i mod length], cut off at the total |
| ByteStreams.SendChunks | cmd/node/server.go:145-156 | the download loop emits the same stream, of the announced length or, if the peer leaves, as far as it went; cmd/web/server.go:198-209 is the same loop |
| ByteStreams.Generate | app/node_agent.py:83-88 | the Python generators, the upload body of app/node_client.py:120-125 included, emit the same stream in non-empty pieces |
| ByteStreams.PeriodicPrefix | cmd/node/server.go:145-156 | a stream cut short is a prefix of the announced one |
| ByteStreams.PeriodicIs | cmd/web/nodeclient.go:233-237 | the stream starts with the chunk and repeats itself at the chunk's length |
| ByteStreams.HandleDownload | cmd/node/server.go:119-157 | case by case, the announced length for absent, int64 and larger sizes, below one byte, within the cap and above it; the clamp equals the Python clamp, and Content-Length is what is sent to a peer that stays |
| ByteStreams.NodesAgree | app/node_agent.py:80 | for which requested sizes the Go and the Python node send the same number of bytes |
| ByteStreams.MeasureDownload | cmd/web/nodeclient.go:120-162 | the center reports the requested size, the default if none was requested, the maximum if that would exceed it, brought between one byte and the node's cap; or an error if the node leaves early |
| ByteStreams.CopyLimited | cmd/node/server.go:167-168 | copying from a limited reader consumes min(body, limit) bytes however the body arrives |
| ByteStreams.HandleUpload | cmd/node/server.go:159-178 | accepts with the body's length if it is within the cap, otherwise rejects, and reads at most max + 1 bytes |
| ByteStreams.CapExactUnlessMax | cmd/node/server.go:167-177 | the int64 limit, the limited copy and the comparison together decide as the cap promises for every body if and only if the cap is not the largest int64, where every upload counts as empty |
| ByteStreams.PyHandleUpload | app/node_agent.py:103-111 | the chunk-summing loop takes the cap's decision for every chunking, if and only if there is a chunk or the cap is not negative |
| ByteStreams.CutUpKeeps | cmd/web/nodeclient.go:193-199 | cutting a body into pieces loses nothing |
| ByteStreams.MeasureUpload | cmd/web/nodeclient.go:168-214 | the size is the requested one, the default if none was requested, the maximum if that would exceed it; the body that the reader produced, cut up in any way, is counted by the node as exactly the bytes the center reports, if they are within the node's cap |
| Measurements.Take | static/app.js:1382-1402 | counting a piece and turning the count into a sample after half a second |
| Measurements.RunDownloadPhase | static/app.js:1347-1428 | the nested loops meter, in order, exactly these pieces: responses are asked for while the clock before asking is before the deadline, and of each all pieces are read, or those up to and including the first one past the deadline |
| Measurements.ReadsUnique | static/app.js:1347-1417 | that rule leaves no choice |
| Measurements.PieceOf | static/app.js:1382-1383 | the pieces are those of the responses, one after the other |
| Measurements.RunUploadPhase | static/app.js:1456-1520 | the upload loop meters one 512 KiB chunk for each finished request, at the time after its own response; requests are made while the clock before them is before the deadline |
| Measurements.Conserved | static/app.js:1382-1391 | received bytes are the sum of rate times interval over the samples plus the pending bytes, and the intervals add up to the sampled time |
| Measurements.PendingIsYoung | static/app.js:1385-1391 | what is pending is always less than half a second old |
| Measurements.SmoothedWithin | static/app.js:1389-1397 | every displayed rate lies between the lowest and the highest sample so far, the restart from zero included |
| Measurements.DisplayRule | static/app.js:1393-1397 | the first sample and any after a zero shows as it is, any other moves the display by 35 percent of the difference |
| Measurements.DisplaySettles | static/app.js:1393-1397 | at a constant rate the display's error shrinks by exactly 0.65 with each sample |
| Measurements.PeakIsMaximum | static/app.js:1399-1402 | the peak is the highest displayed rate, and it was displayed |
| Measurements.ThroughputWithin | static/app.js:1382-1391 | throughput over the sampled window lies between the lowest and the highest sample |
| Measurements.PingStatistics | cmd/web/nodeclient.go:101-117 | the loop computes minimum, mean, maximum and spread; app/node_client.py:75-81 has the same figures in closed form |
| Measurements.BrowserJitter | static/app.js:1314-1323 | the loop computes the mean absolute difference between neighbours |
| Measurements.SumIs | cmd/web/nodeclient.go:101-110 | what the mean divides: a sum that is additive over lists and of one value the value |
| Measurements.StepSumIs | static/app.js:1314-1323 | what the jitter divides: joining two lists adds the distance between their facing ends |
| Measurements.Extremes | cmd/web/nodeclient.go:101-110 | minimum and maximum occur in the list and bound all of it |
| Measurements.PingFigures | static/app.js:1293-1323 | minimum <= mean <= maximum, and the browser's jitter never exceeds the server's |

## Left out

- HTTP routing, middleware, CORS, JSON, logging, tokens and the proxy handlers: plumbing around the core. The repository's README says that all node endpoints require the key, while the Go node lets requests without any key measure (cmd/node/server.go:88-94); authentication of node endpoints is not modelled.
- `internal/sealedbox`, SHA-256, HMAC-SHA256, base64, UTF-8 and the random generator: parameters with the laws stated above.
- `internal/netguard`: the endpoint that an address resolves to is an input, and an agent's settings resolve to the same endpoint throughout a run.
- SQLite and time parsing: the table is a map, a failed database call is a lost request; listing nodes only reads.
- File operations: the ini file is its text, replaced at once or not at all; temporary files, renaming and permissions are not modelled.
- The Python agent's `node_state.py` rests on `configparser`, which is not part of this model.
- Concurrent requests in the Python center, whose routes take no lock: each is modelled as one step; its speed test and health check write back in the step that measures.
- Agents with an explicit NODE_KEY never register and do not appear in the step system; `NodeAgent.Agent.ResolveNodeKey` covers them.
- In the step system an agent may retry without bound and ends an unsuccessful boot by crashing; the number of attempts and the sleeps are in `Backoff`.
- Chunks of size zero: with STREAM_CHUNK_BYTES <= 0 the senders would not make progress; every sender here has a non-empty chunk unless the total is zero.
- Measurement errors (aborts, HTTP failures) end a phase with an exception and show no figure; drawing, translation and rounding for display are not modelled, nor is floating-point rounding.
- ByteStreams.MeasureUpload: requires a positive size and chunk size; for a size of zero or less the body is empty and the request's length header decides.
- Measurements.PingStatistics: requires one latency at least; with a configured count of zero the Go code would index an empty slice.
