# Verification of the chat server's core

This project models the four parts of the chat server that carry its logic, and proves what they promise.

* **The thread pool** (`thpool.c`). `ThreadPool` is a state machine in which one event is one critical
  section or one read made without a lock, so a run of events is an interleaving of the C threads. A job is
  the finite tree of jobs it submits. `PoolSafety` and `PoolLedger` hold the invariants that every event
  keeps, `PoolTheorems` what follows for every reachable state, `PoolLiveness` why the pool comes to rest and
  when thpool_wait returns, `PoolShutdown` how thpool_destroy ends. `PoolEvents` counts posts, passes and calls
  by the events of a run. `JobQueue` is the linked list behind the queue, on the heap, and `PoolQueue` ties it
  to the state machine.
* **The hash map** (`hashmap.c`). `HashTable` gives each operation as a function on slot arrays, for any hash
  function, with the mutually recursive put and rehash; `HashMap` is the object that overwrites its array,
  proved to do the same. `HashTableLaws` relates the operations to a plain map and `HashTableRuns` whole
  sequences of calls; `HashTableBounds` says when put succeeds and how far the table grows,
  `HashTableMemory` how much memory a put needs, `HashTableFailures` what is left when memory runs out,
  `HashTableLookups` what lookups and iteration see. `Crc`, `Mix` and `StringHash` are the hash of the keys, on
  64-bit words. `HashTableRows` and `HashTableWitnesses` say on which keys rehashes nest, entries are lost and
  puts never end, for any hash with given homes or collisions, and `ServerNames` gives user names that are such
  keys under the server's own hash.
* **The registry** (`server.c`). `Server` has the commands 00, 02, 03, 04, 06 and 08, as functions and as the
  handler's own form; `Registry` proves each of them equal to a step of a plain map from names to clients;
  `ServerRuns` extends this to any interleaving of any number of handlers; `ServerRounds` runs the handlers in
  the pool, as the loop of main does; `ServerWire` says in which order and to whom they write; `ServerCrowds`
  follows nine users whose names have one hash, and `ServerReplies` shows what a client's parser makes of the
  replies.
* **The request parser** (`parser.c`). `Parser` has `interpret` on text, the same on the buffer that
  `strtok_r` cuts up in place, and the formats in which `client.c` prints requests; `ClientLines` has these
  lines written out, and when a line is read at all.

`Protocol` holds the records of `parser.h` and `snprintf`; `Options` and `Sets` what the others share.

`dafny verify dfyconfig.toml` checks everything.

Conventions. Allocation in `hashmap_rehash` is modelled by a parameter `limit`: a table of more than `limit`
slots is not obtained, and the operation ends in MAP_OMEM with the table as the C code leaves it. Pointers to
clients are positions in a sequence. What is sent is a value; `Write(fd, text)` and `Close(fd)` stand for the
system calls. Where a proof is about any hash function `h`, the server's own is `StringHash.KeyHash`.

Where the code does not do what one might expect, the model follows the code:

* `hashmap_put` of a key that is present leaves `size` too large, or the key in two slots; a tidy table stays
  tidy exactly when the key was absent (`PutTidyIffAbsent`, with an input in `PutTwice`). The server puts absent
  names only.
* A ninth key with the hash of eight others never fits: put would double the table for as long as memory lasts,
  although the table is almost empty. alice01, caoujyn, d5xga26, yhh9bn0, p10mfv1, ivo5kmf, qrnol3g, ue3lmcp
  and kvgi72k are nine such names (`NinthFellowNeverFits`); the server takes in any eight of them and refuses the
  ninth with any memory (`NinthIsRefused`, `FellowIsRefused`). More generally w + 8 keys with hashes among w
  adjacent values never fit (`CrowdNeverFits`); the input for w = 2, `TenOverTwo`, is under a hash function made
  up for it, and is not claimed of the server's.
* Whether keys fit can depend on the order in which they come: with memory for fewer than 1024 slots this
  happens to the nine names of `ServersOrderDecides`. `OrderDecides` shows it at every limit, but under a hash
  function made up for it.
* A rehash can start another one in its loop. If memory runs out then, entries are lost
  (`FailedRehashKeepsContentsIff`); with the names of `ServersNestedRehash` and memory for 512 slots, u1089 is.
* A 00 for an absent user is answered as if the name were taken exactly when its put finds no memory
  (`RegisterRefusedIff`; `RegisterNeedsMemory` says how much it needs), and other users may be gone afterwards
  (`RegisterWithoutMemory`).
* The list of 06 is put together in 1024 bytes without a check; what would overflow it is answered with
  `Overflow` here. Ten users always fit (`TenFit`).
* The replies 01 and 05 end in a newline, which the client's `interpret` keeps in the last field; a status or
  ip of 49 characters then overflows its array (`DescriptionReads`, `RefusalReads`).
* The CRC starts at 0 and is not complemented, unlike the one of section 8 of RFC 1952; the difference
  depends on the length of the buffer only (`DiffersFromRfc1952ByLength`).
* `thpool_wait` returns exactly when the pool has a worker or its queue is empty (`WaitReturnsIff`); a pool of
  none with a queued job can be made (`StrandedWaiterIsReachable`).

## Model

| member | source | states |
|---|---|---|
| PoolTheorems.InvNext | thpool.c:317-551 | every event of every thread, spurious wake-ups included, keeps the pool's invariant |
| PoolTheorems.InvInit | thpool.c:120-172 | the invariant holds when the threads have been created |
| PoolEvents.PassesNeedPosts | thpool.c:508-551 | from thpool_init on, workers pass bsem_wait no more often than the semaphore was posted, its initial value being 0; and before shutdown it is posted at most once for each push and each pull of a job |
| PoolEvents.NoJobNoPass | thpool.c:120-172 | until a job is submitted the semaphore is down, no worker counts as working and none gets past bsem_wait |
| PoolEvents.InitWaits | thpool.c:168-171 | when thpool_init has returned every worker has counted itself as alive |
| PoolEvents.CountersFrozen | thpool.c:197-203 | while thpool_wait holds thcount_lock no worker changes num_threads_working or num_threads_alive |
| PoolEvents.AnySleeperWakes | thpool.c:544-551 | the runs considered include spurious wake-ups of any sleeper at any time |
| PoolTheorems.OneHolder | thpool.c:434-491 | in every reachable state at most one thread, worker or caller, is inside rwmutex |
| PoolTheorems.NoLostWakeup | thpool.c:351-362 | until shutdown, queued work implies a raised semaphore, a worker past it that has not pulled, or a lock holder about to post; and a raised semaphore with a sleeping worker implies a woken one |
| PoolSafety.AnnouncedWork | thpool.c:451-453 | each step of a worker keeps waiting work announced, although the semaphore holds only 0 or 1 |
| PoolSafety.RaisedWork | thpool.c:526-551 | each step of a worker keeps a woken worker beside the sleeping ones while the semaphore is raised |
| PoolSafety.WatchedWork | thpool.c:349-377 | counting as working before pulling keeps the unlocked read of len in thpool_wait sound |
| PoolSafety.CountersWork | thpool.c:344-381 | num_threads_working and num_threads_alive stay the number of workers between their increments and decrements |
| PoolSafety.AtMostOneLateWork | thpool.c:349-366 | once threads_keepalive is cleared a worker starts at most one more job, counted at the call of the job's function |
| PoolTheorems.WaitIsABarrier | thpool.c:197-203 | when thpool_wait returns every accepted job has run to its end once and submitted all its children |
| PoolTheorems.DescendantsRan | server.c:389-450 | behind the barrier every job transitively submitted by an accepted one has run |
| PoolTheorems.NodesRanSeparately | server.c:389-450 | different jobs of one submission tree ran as different jobs |
| PoolTheorems.JobsAreConserved | thpool.c:362-367 | at every moment each accepted job is in one place: queued, held by a worker, completed or freed |
| PoolEvents.CalledOnce | thpool.c:362-367 | in every run the function of each job is called at most once, and exactly once for every job when thpool_wait returns |
| PoolTheorems.JobsLeaveInOrder | thpool.c:434-491 | first in, first out: the jobs gone from the queue are always exactly the oldest accepted ones |
| PoolEvents.OneWorkerHoldsLast | thpool.c:434-491 | a single worker always holds the job that left the queue last |
| PoolTheorems.DestroyAccountsForAll | thpool.c:207-242 | after thpool_destroy each accepted job completed once or was freed once, never both, each worker started at most one job late, and all are gone |
| PoolEvents.OneCallAfterDestroy | thpool.c:349-366 | counted over any run from when threads_keepalive is cleared, each worker calls at most one more job |
| PoolEvents.NoCallAfterDestroy | thpool.c:349-366 | and none if it was not already between its test of threads_keepalive and the call |
| PoolLedger.LedgerWork | thpool.c:349-377 | no step of a worker loses or duplicates a job |
| PoolLedger.TreesWork | thpool.c:176-193 | the jobs recorded as submitted by a job are its children in order |
| PoolLiveness.MeasureFalls | thpool.c:317-384 | every step of a worker, or of a caller outside thpool_destroy's polling, lowers one natural number |
| PoolLiveness.InternalRunsEnd | thpool.c:317-384 | so no run of such steps is longer than that number |
| PoolLiveness.StuckIffQuiescent | thpool.c:349-384 | with a worker and before shutdown no step is possible exactly when nothing is queued or running and every worker sleeps: there is no deadlock |
| PoolLiveness.WaiterNeverStranded | thpool.c:197-203 | a caller asleep in thpool_wait has a queued or running job to wait for, and some worker can move |
| PoolLiveness.WaitReturnsIff | thpool.c:197-203 | from every reachable state inside thpool_wait, every run of the pool's steps is bounded and one that cannot go on exists; all such runs end with the caller back and every accepted job complete if and only if there is a worker or the queue is empty |
| PoolLiveness.RunsToRest | thpool.c:317-384 | from every live state the pool can be driven to rest |
| PoolLiveness.NoWorkersNeverReturn | thpool.c:197-203 | in a pool of no workers, with a queued job, thpool_wait stays inside under every event |
| PoolLiveness.StrandedWaiterIsReachable | thpool.c:176-203 | such a state is reached by one submission and a call of thpool_wait |
| PoolLiveness.SubmissionCost | thpool.c:176-193 | after a submission at rest every run of the pool's steps has fewer than 30 events for each job of the submitted tree, and one that cannot go on ends at rest with everything complete |
| PoolShutdown.DestroyCanFinishFrom | thpool.c:207-242 | from every reachable state in the polling of thpool_destroy some run of the pool's steps leads to its end |
| PoolShutdown.CanBeDestroyed | thpool.c:207-242 | from every reachable live state of a pool with a worker some run shuts the pool down |
| PoolShutdown.PollMakesProgress | thpool.c:221-231 | after each post to all, every run of the workers that cannot go on has let at least one of them leave |
| PoolShutdown.RoundsAreFew | thpool.c:221-231 | so if the workers run to a stop between polls, thpool_destroy polls at most once for each thread, under every schedule |
| JobQueue.Queue.Push | thpool.c:434-455 | the job joins the rear of the list and the semaphore is raised |
| JobQueue.Queue.Pull | thpool.c:465-491 | the front job is removed, or NULL returned from an empty queue, and work left behind is announced |
| JobQueue.Queue.Clear | thpool.c:418-429 | ends, and takes every queued job once, front first |
| JobQueue.FrontReachesExactlyLen | thpool.c:434-491 | following prev from front meets exactly the len queued jobs and then NULL |
| JobQueue.NoJobTwice | thpool.c:434-491 | the prev links have no cycle |
| PoolQueue.NewQueue | thpool.c:396-414 | the queue and the semaphore that jobqueue_init makes are those of a new pool |
| PoolQueue.AddWork | thpool.c:176-193 | a push on the heap, post included, is what Enqueue and Post do to the queue and the semaphore of the state machine |
| PoolQueue.PullWork | thpool.c:465-491 | a pull on the heap, post included, is what the pulling events do, and returns the ticket the worker then holds |
| PoolQueue.ClearWork | thpool.c:418-429 | jobqueue_clear on the heap is the run of clearing events, and frees the queued jobs in order |
| PoolQueue.ClearOne | thpool.c:418-422 | each of the clearing events but the last is one jobqueue_pull, its post included |
| PoolQueue.ClearedIsEmpty | thpool.c:418-429 | those events empty the queue, lower the semaphore and free each queued job once |
| HashTable.ProbeFinds | hashmap.c:191-216 | hashmap_hash ends at the first slot among 8 that is free or holds the key, or there is none |
| HashTable.SearchMisses | hashmap.c:301-318 | lookup fails exactly when none of the 8 slots holds the key, holes or not |
| HashTableLaws.GetIsLookup | hashmap.c:289-318 | hashmap_get is lookup in the map, after any removals |
| HashTableLaws.PutIsInsert | hashmap.c:261-284 | a successful put of an absent key adds exactly that pair, through however many nested rehashes, and keeps distinct keys, chains of 8, size and the half-full bound |
| HashTableLaws.RemoveIsDelete | hashmap.c:352-384 | hashmap_remove deletes the key from the map and keeps the table tidy, with no tombstone |
| HashTableLaws.RehashKeepsContents | hashmap.c:221-256 | hashmap_rehash of distinct keys keeps the map and makes size its number of entries, even when it starts further rehashes |
| HashTableLaws.EmptyIsTidy | hashmap.c:31-47 | a new table stands for the empty map |
| HashTableBounds.OccupiedIsCardinality | hashmap.c:394-398 | with distinct keys, hashmap_length is the size of the map |
| HashTableBounds.SpreadDoubles | hashmap.c:191-216 | keys that spread well over n slots spread well over 2n |
| HashTableBounds.SpreadHasRoom | hashmap.c:191-216 | with well-spread keys hashmap_hash finds a slot, by counting the 8 slots of the window |
| HashTableBounds.PutEndsBounded | hashmap.c:221-284 | if some capacity on the doubling chain spreads the keys, put ends in MAP_OK with a table no larger than that or the current one |
| HashTableBounds.CrowdFits | hashmap.c:191-216 | in a tidy table at most w + 7 keys have their homes in w adjacent slots |
| HashTableBounds.PutNeedsRoom | hashmap.c:191-284 | a put that succeeds needs that of the keys, the new one included, both for homes at its final capacity and for hash values |
| HashTableBounds.CrowdNeverFits | hashmap.c:261-284 | if more than w + 7 of the keys have hashes among w adjacent values, put succeeds at no limit |
| HashTableBounds.NinthCollisionNeverFits | hashmap.c:261-284 | the case of one hash value: a ninth key with the hash of eight present ones |
| HashTableMemory.PutIgnoresLimit | hashmap.c:221-284 | a put that succeeds does the same with more memory |
| HashTableMemory.PutNeedsItsSize | hashmap.c:221-284 | and with any memory that allows the capacity it ends with |
| HashTableMemory.PutNeedsMemory | hashmap.c:221-284 | a put that succeeds with enough memory succeeds exactly if it finds a slot at once or memory allows the capacity it then ends with |
| HashTableLookups.PutThenGet | hashmap.c:261-318 | on every table, duplicates included, get after a successful put returns the value, and without a rehash no other lookup changes |
| HashTableLookups.PutTidyIffAbsent | hashmap.c:269-281 | a successful put keeps the table tidy exactly when the key was absent |
| HashTableLookups.EntriesListContents | hashmap.c:325-346 | iteration meets every pair of the map once |
| HashTableRuns.RunRefines | hashmap.c:261-398 | any sequence of puts of keys that get has missed, gets, removals and lengths answers as on a plain map and keeps distinct keys, chains of 8, and size the number of entries |
| HashTableRuns.RunFromEmpty | hashmap.c:31-398 | the same from hashmap_new |
| HashTableFailures.FailedPutKeepsTableIff | hashmap.c:221-284 | a put that fails leaves the table untouched exactly when its first doubling found no memory |
| HashTableFailures.FailedRehashKeepsContentsIff | hashmap.c:221-256 | a rehash that fails keeps the map exactly when the doubled array was not obtained; otherwise entries are lost |
| HashTableFailures.FailedPutLeaves | hashmap.c:221-284 | a put of an absent key that fails leaves a tidy table with some of the pairs unchanged, and with all of them exactly when its last rehash was refused the doubled array at once |
| HashTableFailures.PutStaysInhabited | hashmap.c:221-284 | a table with entries is never left with size 0, whether put succeeds or fails |
| HashTableWitnesses.NestedByHomes | hashmap.c:221-256 | nine keys in a row, under any hash with these homes: their rehash starts another one, and loses the first key if there is memory for the first doubling only |
| HashTableWitnesses.KeptAfterARehash | hashmap.c:221-284 | the put of a ninth key with one hash, given memory for 512 slots, fails after a rehash that succeeded, and nothing is lost |
| HashTableWitnesses.OrderDecides | hashmap.c:221-284 | under a hash made up for it, not that of hashmap_hash_int: nine keys that get into a new table without a rehash in one order, and at no capacity in another one |
| HashTableWitnesses.OrderDecidesBelow1024 | hashmap.c:221-284 | under any hash with these homes at 256 and 512 slots: nine keys that get in without a rehash in one order, and with memory for fewer than 1024 slots not at all in another |
| HashTableWitnesses.NinthNeverFits | hashmap.c:261-284 | of any nine keys with one hash, the first eight get into a new table without a rehash, and the ninth gets in at no limit |
| HashTableWitnesses.TenOverTwo | hashmap.c:261-284 | under a hash made up for it, not that of hashmap_hash_int: ten keys over two hash values, five each, of which the tenth gets in at no capacity |
| HashTableWitnesses.PutTwice | hashmap.c:261-284 | putting any key twice into a new table spoils it, under every hash function |
| ServerNames.ServersNestedRehash | hashmap.c:167-256 | under the server's own hash nine user names make a table whose rehash starts another one; it succeeds with memory for 1024 slots, and with memory for 512 the entry of u1089 is lost |
| ServerNames.ServersOrderDecides | hashmap.c:167-284 | under the server's own hash the same nine names get into a new table in order, and with u1089 last not with memory for fewer than 1024 slots |
| ServerNames.NinthFellowNeverFits | hashmap.c:167-284 | nine user names have one hash under the server's own hash function: eight get into a new table and the put of kvgi72k succeeds at no limit |
| ServerNames.FellowsKeptAfterARehash | hashmap.c:167-284 | with memory for 512 slots that put fails after a rehash that succeeded, and nothing is lost |
| HashMap.HashMap.constructor | hashmap.c:31-47 | hashmap_new gives an empty table of 256 slots |
| HashMap.HashMap.FindSlot | hashmap.c:191-216 | the probing loop computes FindSlot of the table, MAP_FULL included |
| HashMap.HashMap.Rehash | hashmap.c:221-256 | the loop over the old array, with the new one in place, does what Rehash does to the table |
| HashMap.HashMap.Put | hashmap.c:261-284 | the retry loop does what Put does to the table, failure included |
| HashMap.HashMap.Get | hashmap.c:289-318 | returns what Get of the table says, or MAP_MISSING and NULL |
| HashMap.HashMap.Remove | hashmap.c:352-384 | does what Remove does to the table, or nothing and MAP_MISSING |
| HashMap.HashMap.Iterate | hashmap.c:325-346 | calls back for the entries in slot order up to the first answer other than MAP_OK |
| HashMap.VisitStops | hashmap.c:335-345 | the callback gets the entries in slot order as far as the first it does not answer with 0, and that answer is returned |
| Crc.TableIsShift8 | hashmap.c:92-145 | all 256 table entries are their index after eight shifts by the polynomial 0xedb88320 |
| Crc.UpdateFeedsByte | hashmap.c:149-162 | one table step is eight steps of the bit-serial register |
| Crc.Crc32 | hashmap.c:149-162 | crc32 computes the bit-serial remainder from 0, without complement, within 32 of its 64 bits |
| Crc.SerialXor | hashmap.c:149-162 | the register is linear over xor in its start value and the buffer |
| Crc.CrcLinear | hashmap.c:149-162 | crc32 of the xor of two buffers of equal length is the xor of their crc32 |
| Crc.DiffersFromRfc1952ByLength | hashmap.c:149-162 | it differs from the CRC of RFC 1952, section 8, by that CRC of as many zero bytes |
| Mix.JenkinsIsBijective | hashmap.c:171-179 | the eight mixing steps are a bijection of 64-bit words, with an inverse given |
| Mix.KnuthIsInjective | hashmap.c:181-182 | the multiplication loses nothing beyond the three shifted-out bits |
| Mix.CollisionsAreSiblings | hashmap.c:169-182 | two words have the same pre-modulus hash exactly when one is among the eight siblings of the other |
| Mix.SiblingsCollide | hashmap.c:169-182 | every sibling does collide |
| Mix.SiblingsDiffer | hashmap.c:169-182 | the eight siblings are different words |
| Mix.AtMostEightShareAHash | hashmap.c:169-182 | at most eight CRC values share a pre-modulus hash |
| StringHash.BytesAreCodes | hashmap.c:149-162 | each character of a key enters the CRC with its own code, none left out or folded |
| StringHash.BytesDiffer | hashmap.c:149-162 | so different keys are different buffers |
| StringHash.HashInt | hashmap.c:167-185 | hashmap_hash_int is the mixed CRC modulo table_size |
| Server.SwitchPoints | server.c:134-346 | no command leaves a pointer in the table that leads to no client, whatever fails on the way |
| Server.SwitchWrites | server.c:134-346 | every command writes all it writes before it unlocks, but for 06, which writes only after unlocking; and what it writes or closes is the descriptor of the asker, but for 08 |
| Server.SwitchSizes | server.c:262-331 | 04 writes its whole buffer of 1024 bytes, 08 the message alone, all others less than 1024; the list of 06 overflows exactly when its items take 1024 characters |
| Server.Server.RegisterUser | server.c:141-198 | command 00 on the live table, with both conditions and the refusal, which goes to the asker |
| Server.Server.RemoveUser | server.c:199-225 | command 02 on the live table |
| Server.Server.ConcatClients | server.c:111-129 | the list holds one item for each client visited, in order, and whether all calls of strcat stay within the 1024 bytes |
| Server.Server.Handle | server.c:134-346 | the handler does what Switch says to the table and the clients, sends what Switch says under the lock and after it, and to the asker unless the command is 08 |
| Registry.RegisterRefines | server.c:168-197 | 00 registers an absent user and says nothing, and answers 01 to a present one, on the descriptor of the asker and under the lock |
| Registry.LeaveRefines | server.c:207-224 | 02 removes a present user and closes the connection |
| Registry.ChangeStatusRefines | server.c:233-248 | 03 changes the status of a present user and nothing else |
| Registry.ListingIsComplete | server.c:293-308 | the list in the answer to 06 holds every registered user once, and none when there is none |
| Registry.SwitchRefines | server.c:134-346 | every command on the hash table changes the registry and answers as on a plain map, at the time and to whom SwitchWrites says |
| Registry.RegisterRefusedIff | server.c:168-197 | a 00 for an absent user is refused, as if the name were taken, exactly when its put finds no memory |
| Registry.RegisterNeedsMemory | server.c:168-197 | and in terms of memory: exactly when the table has no slot for the name and the capacity its put would end with is not allowed |
| Registry.RegisterWithoutMemory | server.c:168-197 | then no record changes, and every user stays exactly when the put's last rehash was refused the doubled array at once |
| Registry.SwitchStaysGood | server.c:134-346 | no command spoils the table, whether its put succeeds or not |
| ServerRuns.RunGoesOn | server.c:134-346 | the runs considered include every interleaving: whatever is enabled can come next |
| ServerRuns.RunStaysGood | server.c:134-346 | in every run, failing puts included, the table is tidy and every entry names its client |
| ServerRuns.RunIsSequential | server.c:134-346 | in every interleaving whose puts succeed the registry and every answer are those of the plain map served in the order of the lock |
| ServerRuns.EnoughMemorySuffices | server.c:168-170 | if some capacity spreads the names of all requests, no put fails in any run and the table stays within it |
| ServerRuns.StaysRegistered | server.c:168-248 | from an accepted 00 to the user's next 02 the client keeps ip, port and fd, and the status of the last 03 |
| ServerRuns.WhileRegistered | server.c:168-328 | in between, in every state of the kind RunIsSequential reaches, a further 00 for the name gets 01, 04 describes that client, and 08 goes to the fd of the accepted 00 |
| ServerRuns.TenFit | server.c:111-309 | while at most ten users are registered, 06 is answered with the list of all of them and its buffer does not overflow |
| ServerWire.RunIsWired | server.c:134-346 | in every run, failing puts included, the writes of all commands but 06 appear in the order of the lock, complete and each handler's together, and go to the asker unless the command is 08 |
| ServerWire.EarlierFirst | server.c:316-336 | so of two messages to one descriptor, the one whose handler locked first is written first |
| ServerWire.WireGrows | server.c:134-346 | what has been written stays in front of what is written later, answers to 06 included |
| ServerCrowds.CrowdIsRefused | server.c:168-197 | a 00 for a name with the hash of eight registered names is refused, whatever the memory |
| ServerCrowds.NinthIsRefused | server.c:134-198 | of nine handlers of 00 for names with one hash, in every interleaving and at every limit, the first eight to take the lock register their users and the ninth is refused |
| ServerCrowds.FellowIsRefused | server.c:134-198 | nine requests and a run of their handlers on which this happens under the server's own hash |
| ServerRounds.RunIsSound | server.c:537-597 | in every joint run of pool and handlers, a job that is done has a finished handler, a request is served only after its job has left the queue, and the table stays good |
| ServerRounds.HandlerJobIsOut | thpool.c:362-367 | a handler moves only while some worker runs its job, which was pulled from the queue and is not done |
| ServerRounds.OneWorkerInOrder | thpool.c:362-367 | with one worker requests are served in the order in which their jobs were accepted |
| ServerRounds.RoundIsServed | server.c:580-597 | when thpool_wait returns in the loop of main, every request of every job accepted so far is served and its reply sent, and no other, even if puts failed |
| ServerRounds.DescendantServed | server.c:389-450 | that includes requests at any depth of the tree of jobs a message sets off |
| ServerRounds.ReturnIsAnswered | server.c:537-597 | if puts succeed, each handler has then sent what the plain map answers at its place in the order of the lock |
| ServerRounds.RoundAfterRound | server.c:537-597 | between two returns of thpool_wait exactly the requests of the jobs accepted in between are served, and they take the registry from the one state to the other in the order of the lock |
| ServerRounds.EnoughMemorySuffices | server.c:168-170 | puts do succeed in every joint run if some allowed capacity spreads the names |
| ServerRounds.StuckIsQuiescent | server.c:537-597 | jobs that wait for their handlers add no deadlock: if nothing can move, the pool is at rest |
| ServerRounds.RoundEnds | server.c:580-597 | under every schedule the steps of pool and handlers within thpool_wait are bounded, and where none is left the wait has returned with every request served |
| ServerRounds.RunToReturn | server.c:580-597 | there is such a run from every state outside the polling of thpool_destroy |
| ServerReplies.DescriptionReads | server.c:265-273 | the reply 05, 1024 bytes with padding, read by interpret, is the client asked for, its status with a newline, or overflows exactly when the status has 49 characters |
| ServerReplies.DescribedAsRegistered | server.c:141-273 | between an accepted 00 and the next 02 for the name, the reply 05 to any 04 for it reads as the ip and port of the 00 and the last status given |
| ServerReplies.RefusalReads | server.c:190-194 | the reply 01 read by interpret is the name and the ip with a newline, or overflows exactly when the ip has 49 characters |
| ServerReplies.ListingReads | server.c:300-308 | the reply 07, where it fits the buffer, splits into the asker and one user+status for each client listed |
| Parser.StrtokR | parser.c:22-22 | cuts the next token out of the buffer in place and keeps the earlier ones whole |
| Parser.InterpretInPlace | parser.c:6-104 | interpret on the buffer computes Interpret of its text, and a record it returns fits its arrays |
| ClientLines.InterpretsIff | parser.c:21-152 | a line of bars only is undefined; a line of the commands 0 to 6 and 8 is read exactly when the command has two characters and each field is there and fits; any other command but 7 leaves the record blank |
| Parser.TokensOfJoined | parser.c:21-30 | splitting at bars undoes joining with bars |
| Parser.PrintThenInterpret | client.c:163-256 | a printed request is not cut short by the buffer, and interpret recovers every field |
| ClientLines.PrintIsTheLine | client.c:217-256 | what is printed for each of the six commands, field by field |
| ClientLines.GreetingLine | client.c:163-163 | the first line of a client is read as a 00 with the address 192.168.0.1, port 1100 and status 0, or overflows exactly when the name has 50 characters |
| ClientLines.RegisterLine | parser.c:26-39 | a line 00 is read field by field exactly when each fits its array |
| ClientLines.MessageLine | client.c:217-217 | the same for 08: sender, receiver and message |
| ClientLines.StatusLine | client.c:232-232 | the same for 03 |
| ClientLines.QuestionLine | client.c:242-242 | the same for 04: the user asked for comes first, the asker second |
| ClientLines.NameLine | client.c:249-256 | the same for 06 and 02 |
| ClientLines.RequestGoesThrough | parser.h:9-23 | whatever fits the record can be printed by the client and is read back unchanged |
| Parser.JoinedIsTheFormat | client.c:217-256 | the printed fields are the client's formats |
| Parser.InterpretThenPrint | parser.c:22-104 | for every line of the six commands, printing what was read and reading it again changes nothing |
| Parser.SameTokensSameRecord | parser.c:21-104 | only the tokens matter for what is read |
| Parser.BarsCollapse | parser.c:21-104 | a doubled bar reads as one, and a bar at either end as none |
| Parser.InterpretFits | parser.h:9-23 | what is read fits the record's arrays |

## Left out

- Sockets, `select` and descriptor sets, address lookup, logging, and the client's menu and threads: input and output only.
- `queue.c` and the deferral of 08 in `new_protocol_handler`: the queue has no clean FIFO contract, and the deferral reads the map without its lock and takes the map's element for a client. 08 is modelled in `switch_protocol_handler`.
- The branch for the reply 07 in `interpret`: it inverts no format that is printed; `Interpret` gives `ListReply` there.
- Behaviour that C leaves undefined: a missing token or a field that does not fit its array in `interpret` gives `Undefined`, and a list of 06 past its 1024 bytes gives `Overflow`, after which the model goes on as if nothing else were overwritten.
- `thpool_pause`, `thpool_resume`, signals, thread names, the one-second timing in `thpool_destroy`, and two pools sharing the static flags.
- Weak memory: a read without a lock is one atomic event. Spurious wake-ups are events of the safety results and not of the measure.
- Failed allocation outside `hashmap_rehash`, and `int` overflow of `table_size` beyond 2^30: table_size is unbounded, and `limit` may be taken at or below that.
- Several threads calling `thpool_wait` at once: the pool has one caller besides its workers, as in the server.
- `hashmap_free`, and freeing of old arrays, elements and records, which the server hardly does.
- Termination of the polling loops of `thpool_destroy` under every schedule: it needs a scheduler that lets the workers run between polls; under one that does, the number of polls is bounded (`RoundsAreFew`).
- Connection and protocol jobs beside the handlers: in `ServerRounds` they are jobs without a request, and what they read from sockets is the fixed sequence of requests.
