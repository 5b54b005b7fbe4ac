# gokeyless: a verified model

gokeyless lets a TLS terminator ask a separate key server for its private-key
operations. This project models four parts of it in Dafny and proves what they are
for.

**Key arithmetic.** `Rsa.dfy` models blinded RSA decryption with its plain and its
multi-prime Chinese-remainder branch, `Pkcs1.dfy` the branch-free stripping of PKCS #1
v1.5 padding, and `Ecdsa.dfy` signing with precomputed nonces, over an abstract group of
prime order. `NonceChannel.dfy` is the nonce buffer that goroutines share, and
`EvenModulus.dfy` a key with the prime 2. `Arithmetic.dfy`
holds the number theory (Bézout, Euclid's lemma, the binomial theorem and Fermat's little
theorem) and `Bytes.dfy` the octet-string conversions of sections 4.1 and 4.2 of RFC 8017.

**Wire codec.** `Tlv.dfy`, `Operation.dfy`, `Decoding.dfy` and `Framing.dfy` model the
tag-length-value encoding of operations, the 16-bit length accounting, the padding to
1024 octets, the decoder and the framing of packets on a stream.

**Client multiplexer.** `Multiplexer.dfy` models one connection shared by any number of
operations, readers, timers and callers of Close. The fields and the sections under their
mutexes are the class `Conn`. The same sections, as functions, are the steps of a state
machine over which the concurrent results are proved. `Outcomes.dfy` is about
what stands behind each result and about progress, and `IdReuse.dfy` has runs that show a
bound on ID reuse to be tight.

**Server pipeline.** `Pipeline.dfy` models one client connection (getter, blocker,
response channel, submitter, destroy), `WorkerPool.dfy` a worker pool, and `Server.dfy` the
whole server: any number of listeners, connections and pools. `Requests.dfy` follows
the requests through it, and `Shutdown.dfy` is about Server.Close coming to its end.
`Counting.dfy` holds the counting lemmas.

In each state machine a step is one section under a mutex or one channel operation, an
`Exec` function gives the state after a list of steps, and the results are about every
list of steps that can be taken, so about every interleaving. Random draws are a list
given to the operation. A failing random source is that list running out.

## Where code and documentation differ

- The design comment of the server pipeline gives the response channel two slots more than
  the limit on outstanding requests (server/internal/client/client.go:79-87). The code
  gives it exactly the limit (line 190). The model follows the code, and the limit
  suffices.
- Section 5.1.2 of RFC 8017 refuses a ciphertext representative equal to the modulus. The
  code accepts it (server/internal/rsa/rsa.go:31), and so does the model.
- The Chinese-remainder branch differs from the plain exponent when one of the primes is 2
  and the ciphertext is even, because the reduced exponent is then 0. `Rsa.CrtIsPlain`
  gives the exact condition and `EvenModulus.DecryptWrongly` a key that Decrypt accepts. The
  result is then off by half the modulus, whatever the blind.
- The constant-time comparison in the padding check works on 32 bits, so a padding string
  of 2^31 + 8 octets is refused although section 7.2.2 of RFC 8017 allows it.
  `Pkcs1.AcceptedIff` gives the exact condition and `Pkcs1.OverlongPaddingRejected` an
  input.
- The session key's length is compared in 32 bits as well, so a message 2^32 octets longer
  than the key overwrites the key with its end. `Pkcs1.OverwritesExactly` gives the exact
  condition and `Pkcs1.WrongOverwrite` an input.
- A timer is meant for its own operation, and the comment in timeoutRequest
  (conn/conn.go:220) expects it to find no entry once that one has finished. After 2^32
  allocations it finds the entry of another operation and ends that one. `Multiplexer.RepliesMatch` gives the bound below which this cannot happen
  and `IdReuse.LateTimer` a run that reaches it.
- `Bytes` is documented to be the length of the wire format. It is not when an IP is
  neither four nor sixteen octets. `Operations.CountExactIff` gives the exact condition and
  `Operations.MiscountExample` an input.
- A worker pool without workers never executes what is submitted to it, and its Destroy
  still returns. `WorkerPool.DrainedByDestroy` states exactly when Destroy drains the pool
  and `WorkerPool.UndrainedExample` gives a run.
- A connection's Destroy is documented to return once both goroutines have quit, and
  Server.Close to shut down the active connections. A getter may be in SubmitJob, which
  waits for room in the pool's queue of 1024 * 1024 jobs (server/internal/worker/worker.go:45,
  62-64). A pool without workers never makes room, and the pool for limited clients has none
  by default (server/server.go:851). Then Close waits for good while it holds the server's
  mutex. `Shutdown.CloseCompletesIff` states that Close can always come to its end if and
  only if every pool has a worker, and `Shutdown.CloseHangs` gives a run.

## Model

| member | source | states |
|---|---|---|
| Rsa.ChineseRemainder | server/internal/rsa/rsa.go:69-92 | numbers congruent modulo each of any number of distinct primes are congruent modulo their product |
| Rsa.GarnerStep | server/internal/rsa/rsa.go:81-92 | one recombination step keeps the residue modulo the primes so far, gets the new prime's residue and stays below the product |
| Rsa.PairStep | server/internal/rsa/rsa.go:69-79 | the first two primes' step yields the number below their product with both residues |
| Rsa.NextPrimeStep | server/internal/rsa/rsa.go:81-92 | each turn of the loop over the remaining primes extends that to one more prime |
| Rsa.CrtExp | server/internal/rsa/rsa.go:69-92 | for any number of primes the branch returns a number below N with the reduced-exponent residue modulo every prime |
| Rsa.ReducedExponent | server/internal/rsa/rsa.go:70-71 | the exponent reduced modulo p - 1 gives the same residue as the whole one if and only if p is odd or the base is odd |
| Rsa.CrtIsPlain | server/internal/rsa/rsa.go:66-93 | a number below N with those residues is c^D mod N if and only if no prime is 2 or c is odd |
| EvenModulus.DecryptWrongly | server/internal/rsa/rsa.go:12-25 | a well-formed 81-bit key with the prime 2 that Decrypt accepts, and with which it does not return the plaintext of the ciphertext 2 |
| Rsa.RsaIdentity | server/internal/rsa/rsa.go:39-42 | m^(eD) is congruent to m modulo N for every m, coprime to N or not |
| Rsa.BlindedPower | server/internal/rsa/rsa.go:59-64 | the D-th power of the blinded ciphertext is c^D times the blind |
| Rsa.Unblind | server/internal/rsa/rsa.go:95-97 | multiplying by the inverse of the blind gives the unblinded value exactly when the blinded one was right |
| Rsa.BlindedParity | server/internal/rsa/rsa.go:59-64 | blinding does not change whether an even modulus's ciphertext is even |
| Rsa.BezoutBound | server/internal/rsa/rsa.go:104-124 | the coefficients of the extended greatest common divisor stay within the arguments, so one correction suffices |
| Rsa.ModInverse | server/internal/rsa/rsa.go:104-124 | succeeds if and only if the numbers are coprime, that is if an inverse exists, with the inverse in [1, n) |
| Rsa.DrawBlind | server/internal/rsa/rsa.go:45-58 | fails if and only if no draw is usable, else the blind is the first usable draw (1 for 0) with its inverse |
| Rsa.DecryptInt | server/internal/rsa/rsa.go:29-100 | every error case; otherwise c^D mod N whatever the blind, and exactly that plus half of N modulo N in the even case |
| Rsa.UnblindEven | server/internal/rsa/rsa.go:66-97 | with the prime 2 and an even ciphertext, unblinding the recombined value gives c^D plus half the modulus |
| Rsa.LeftPad | server/internal/rsa/rsa.go:128-136 | right-aligned in a new zeroed buffer, cut at the end when too long |
| Rsa.Decrypt | server/internal/rsa/rsa.go:12-25 | every error case; otherwise exactly the full-length big-endian form of c^D mod N, never truncated |
| Rsa.DecryptUndoesEncrypt | server/internal/rsa/rsa.go:12-25 | for every m below N the plaintext of m^e mod N is the full-length form of m |
| Pkcs1.LessOrEqExact | client/keys.go:261 | the constant-time comparison in 32 bits is true exactly when the difference is below 2^31 modulo 2^32 |
| Pkcs1.Int32Range | client/keys.go:238 | the conversion to 32 bits keeps the low bits as a signed number |
| Pkcs1.Parse | client/keys.go:243-266 | the scan is valid if and only if the block is 00 02 PS 00 M with an accepted PS, and the index then points at M |
| Pkcs1.AcceptedIff | client/keys.go:259-263 | what is accepted is exactly the paddings of section 7.2 of RFC 8017 whose padding string's length, less eight, has bit 31 clear |
| Pkcs1.OverlongPaddingRejected | client/keys.go:259-263 | every padding string shorter than 2^31 + 8 octets is accepted, and none of that length |
| Pkcs1.AcceptedUnique | client/keys.go:243-266 | an accepted block has one message only |
| Pkcs1.Strip | client/keys.go:224-230 | returns M if and only if the block is a padding of M as in RFC 8017 with such a length, so for all blocks up to 2^31 + 10 octets; indexes out of range exactly below two octets |
| Pkcs1.ConstantTimeCopy | client/keys.go:239 | overwrites the whole buffer or leaves it alone |
| Pkcs1.StripSessionKey | client/keys.go:232-241 | the length guard, and the key after the call in both outcomes |
| Pkcs1.OverwritesExactly | client/keys.go:236-239 | for every valid block the key is overwritten if and only if M has its length modulo 2^32, and with M if and only if the lengths are equal |
| Pkcs1.WrongOverwrite | client/keys.go:236-239 | a padded message, for every key length, whose end overwrites the key |
| Pkcs1.PaddedSurvivesDecryption | client/keys.go:192-222 | a padded block of the modulus's length is below N and is its own encryption's plaintext |
| Pkcs1.DecryptThenStrip | client/keys.go:192-222 | decrypting any PKCS #1 v1.5 encryption of M and stripping returns M |
| Ecdsa.MulMod | server/internal/ecdsa/ecdsa.go:207-230 | multiples of the base point depend on the scalar modulo N only |
| Ecdsa.NotNeutral | server/internal/ecdsa/ecdsa.go:207-230 | no scalar in [1, N) gives the neutral point |
| Ecdsa.FermatInverseCorrect | server/internal/ecdsa/ecdsa.go:288-292 | k times k^(N-2) is 1 modulo a prime N |
| Ecdsa.HashToIntIsLeftmostBits | server/internal/ecdsa/ecdsa.go:269-282 | the number is that of the leftmost min(order bits, hash bits) bits of the hash |
| Ecdsa.FieldElement | server/internal/ecdsa/ecdsa.go:248-261 | a draw becomes the one scalar in [1, N) congruent to it plus one modulo N - 1 |
| Ecdsa.FieldElementReaches | server/internal/ecdsa/ecdsa.go:248-261 | every scalar in [1, N) is drawn, and draws less than N - 1 apart give different ones |
| Ecdsa.GenRandForSign | server/internal/ecdsa/ecdsa.go:181-231 | the nonce of the first usable draw, with Fermat's inverse whichever inversion the curve has; an error only for a failed source, for order zero, or when every draw is unusable |
| Ecdsa.InverseUnique | server/internal/ecdsa/ecdsa.go:218-222 | an inverse in [0, N) is unique, so the curve's own inversion and Fermat's agree |
| Ecdsa.SignatureVerifies | server/internal/ecdsa/ecdsa.go:154-179 | r and a nonzero s from any nonce satisfy the verification of section 4.1.4 of SEC 1 |
| Ecdsa.RandBuffer.constructor | server/internal/ecdsa/ecdsa.go:49-51 | an empty buffer of the given capacity, nothing generated or handed out |
| Ecdsa.RandBuffer.Size | server/internal/ecdsa/ecdsa.go:54-56 | the number of nonces held |
| Ecdsa.RandBuffer.IsFull | server/internal/ecdsa/ecdsa.go:59-61 | holds its capacity |
| Ecdsa.RandBuffer.Fill | server/internal/ecdsa/ecdsa.go:65-77 | adds the nonce of the first usable draw on top, or leaves a full buffer, or on an error the contents, alone; keeps generated equal to buffered plus handed out |
| Ecdsa.RandBuffer.Gen | server/internal/ecdsa/ecdsa.go:79-86 | hands out the newest nonce and forgets it though its slot is not cleared, or that of the first usable draw; keeps generated equal to buffered plus handed out |
| Ecdsa.TakeNonce | server/internal/ecdsa/ecdsa.go:160-176 | the loop ends with the first nonce whose s is nonzero; the nonces it spends are the skipped ones and that one, off the top of the buffer, newest first, while it lasts |
| Ecdsa.Sign | server/internal/ecdsa/ecdsa.go:154-179 | every signature returned has s in [1, N) and verifies, spends nonces that leave the buffer for good, and curves must match |
| NonceChannel.Conservation | server/internal/ecdsa/ecdsa.go:110-129 | in every run, the generated nonces are exactly the buffered, in-hand, handed-out and cancelled ones |
| NonceChannel.NoReuse | server/internal/ecdsa/ecdsa.go:110-129 | a nonce is handed out no more often than it was generated, and once handed out it is nowhere else |
| NonceChannel.OldestFirst | server/internal/ecdsa/ecdsa.go:110-129 | nonces leave the channel in the order they entered it, and one is made directly only when all stored ones have been taken |
| Tlv.ItemOctets | protocol/protocol.go:427-432 | the octets of an item: tag, length with its high octet first, data |
| Tlv.SplitEncode | protocol/protocol.go:427-432 | encoded items, with up to two octets behind them, split into the same items |
| Tlv.SplitExact | protocol/protocol.go:609-617 | a body splits into items if and only if it is their encoding and at most two octets |
| Operations.MarshalBinary | protocol/protocol.go:523-592 | the octets of the present fields in wire order, and the padding item |
| Operations.WireLayout | protocol/protocol.go:523-591 | the items of an operation listed under the tags' numbers, each present exactly when its field is, and padding after them |
| Operations.WireIPs | protocol/protocol.go:543-557 | an IPv4 address in sixteen octets is written as its last four, every other IP as it is |
| Operations.PaddedLength | protocol/protocol.go:574-591 | every packet has at least 1024 octets, exactly 1024 for bodies up to 1013, three more than the body for 1014 and 1015 |
| Operations.AddExact | protocol/protocol.go:436-456 | counting an item in uint16 panics exactly when the true total exceeds 65535, and is exact otherwise |
| Operations.BytesLen | protocol/protocol.go:447-520 | for proper IPs the length of the wire format, with a panic exactly above 65535; otherwise that of the same operation with sixteen-octet IPs |
| Operations.CountExactIff | protocol/protocol.go:447-520 | the count is the true length if and only if the IPs' surplus is zero or both bodies pad to the same length, with all such pairs of lengths listed |
| Operations.MiscountExample | protocol/protocol.go:447-520 | an operation with a client IP of five octets that is miscounted |
| Decoding.DecodeFromExact | protocol/protocol.go:609-670 | from any point of the loop, its outcome is that of the whole body's item list |
| Decoding.UnmarshalBinary | protocol/protocol.go:596-672 | terminates on every body, succeeds if and only if the item list is admissible, with the operation the items describe over the old fields |
| Decoding.AcceptedBodies | protocol/protocol.go:596-672 | accepted bodies are exactly items plus at most two octets, known tags distinct, opcode of one octet, IPs of four or sixteen |
| Decoding.PermutationInvariant | protocol/protocol.go:596-672 | permuting the items and changing the trailing octets changes neither acceptance nor result |
| Decoding.UnknownIgnored | protocol/protocol.go:659-661 | an item with an unknown tag at any item boundary changes nothing |
| Decoding.RoundTrip | protocol/protocol.go:523-672 | decoding an operation's encoding gives its normal form, and fails if and only if an IP is improper |
| Decoding.RoundTripFields | protocol/protocol.go:523-672 | field by field what comes back: everything as it was, but an empty payload or extra is absent and a mapped IPv4 address has four octets |
| Decoding.NormalFormSameWire | protocol/protocol.go:523-592 | the normal form has the same encoding, and is its own normal form |
| Decoding.DecodedIPs | protocol/protocol.go:594-606 | decoded IPs are absent or have four or sixteen octets |
| Decoding.DecodedAgain | protocol/protocol.go:523-672 | whatever the decoder accepts it accepts again when re-encoded, in normal form |
| Framing.HeaderRoundTrip | protocol/protocol.go:285-304 | parsing a header's eight octets gives the header |
| Framing.HeaderOctets | protocol/protocol.go:285-292 | the eight octets of a header: versions, length and ID, high octets first |
| Framing.NewPacket | protocol/protocol.go:339-349 | version 1.0 and the counted length, which for proper IPs is the body's; a panic exactly when it exceeds 65535 |
| Framing.WriteTo | protocol/protocol.go:375-383 | the header's octets and the body's |
| Framing.ReadFrom | protocol/protocol.go:386-398 | the packet, or which of the three errors, and the number of octets read in every case |
| Framing.ReadFrame | protocol/protocol.go:386-398 | a complete packet takes exactly 8 + Length octets whether or not its body decodes |
| Framing.StreamAligned | protocol/protocol.go:386-398 | reading back-to-back complete packets yields each one's own decoding and takes exactly their octets, bad ones included |
| Framing.StreamRoundTrip | protocol/protocol.go:375-398 | packets of NewPacket written back to back are read as the same sequence in normal form, every octet and no more |
| Multiplexer.RunKeepsInv | conn/conn.go:152-292 | the invariant of the connection holds in every reachable state of every interleaving |
| Multiplexer.NoSenderBlocks | conn/conn.go:163-222 | every channel gets at most one value in its lifetime, so no reader, timer or Close ever blocks sending |
| Multiplexer.NoWaiterStranded | conn/conn.go:202-292 | a waiting operation has its value, or an extracted channel about to be sent to, or a sweep about to reach it, or its own timer pending on an open connection |
| Multiplexer.RepliesMatch | conn/conn.go:178-292 | a returned reply carries the operation's ID, and a reply or timeout is that of its own request or timer if fewer than 2^32 IDs were allocated in between |
| IdReuse.LateReply | conn/conn.go:216-292 | a run in which an operation gets the reply to another one's request after exactly 2^32 allocations |
| IdReuse.LateTimer | conn/conn.go:216-292 | a run in which an operation is ended by another one's timer after exactly 2^32 allocations |
| Outcomes.OutcomesHaveCauses | conn/conn.go:226-292 | a returned reply is a packet that a reader took off the connection, a timeout came through a started timer, and every other failure means a closed connection or a failed write |
| Outcomes.WriteDecides | conn/conn.go:271-275 | a call whose write failed has returned the failure, one whose write went through waits or has got a delivery |
| Outcomes.CallMoves | conn/conn.go:226-292 | each step of a call brings it nearer to returning, and no other goroutine's step moves it |
| Outcomes.ClosedRefuses | conn/conn.go:238-263 | on a closed connection registering and writing return the failure at once |
| Outcomes.OneWriter | conn/conn.go:258-275 | in every run at most one request is being written, and never on a closed connection |
| Outcomes.ActorsEnd | conn/conn.go:178-223 | a reader or timer goes on to send exactly when the connection is open and its ID listed, and ends otherwise and after sending |
| Outcomes.CloseEnds | conn/conn.go:152-172 | a Close that holds a mutex can always take a step, and each brings it nearer to releasing them |
| Outcomes.CallNeverStuck | conn/conn.go:226-292 | a call that has not returned can move, or someone who holds what it needs can, or it waits for its result |
| Multiplexer.EntriesDistinct | conn/conn.go:243-253 | two entries of the map never belong to the same operation, and each entry stands under its operation's ID |
| Multiplexer.Conn.constructor | conn/conn.go:138-144 | open, no entries, next ID zero |
| Multiplexer.Conn.Register | conn/conn.go:235-254 | the registration step of the machine, on the fields, with wrap-around and the collision case |
| Multiplexer.Conn.ExtractChannel | conn/conn.go:202-214 | the extraction step of the machine, on the fields |
| Multiplexer.Conn.Close | conn/conn.go:152-172 | puts one nil in each listed channel and touches no other; blocks if and only if some listed channel is full |
| Multiplexer.CloseNeverStuck | conn/conn.go:152-172 | in every reachable state every listed channel has room, so Close does not block while it holds both mutexes |
| Pipeline.BlockerObject.constructor | server/internal/client/client.go:315-317 | open, nobody waiting, all requests left |
| Pipeline.BlockerObject.Do | server/internal/client/client.go:325-338 | the entering step of the machine, on the fields: refused, admitted or made to wait, and the counts after it |
| Pipeline.BlockerObject.Done | server/internal/client/client.go:347-358 | the releasing step of the machine, on the fields: nothing when closed, else one more left and the waiter released at zero |
| Pipeline.BlockerObject.Close | server/internal/client/client.go:362-373 | the closing step of the machine, on the fields: closed, and a waiter released once |
| Pipeline.RunKeepsInv | server/internal/client/client.go:187-301 | the invariant of one connection holds in every reachable state of every interleaving |
| Pipeline.WorkersNeverBlock | server/internal/client/client.go:187-301 | queued, executing and unread responses never exceed the limit, so a commit never blocks, also after the submitter has quit or the blocker is closed |
| Pipeline.BlockerRange | server/internal/client/client.go:303-373 | the counter stays in [-1, max], and the WaitGroup is 1 exactly when the open blocker is at -1, else 0 |
| Pipeline.NoLostWakeup | server/internal/client/client.go:325-373 | the next Done or Close releases a blocked Do, and the release is never taken back |
| Pipeline.BlockedMeansFull | server/internal/client/client.go:325-373 | Do waits only with the limit outstanding, and while the submitter lives something can move |
| Pipeline.RequestsInOrder | server/internal/client/client.go:262-281 | every request read is submitted unchanged and in order, but for the one in hand and at most one dropped by a getter that finds the blocker closed |
| Pipeline.RepliesInOrder | server/internal/client/client.go:283-301 | every response committed is handed to the client unchanged and in order, but for the one in hand and those in the channel |
| Pipeline.WhyQuit | server/internal/client/client.go:262-301 | the getter quits only when GetJob returned false or the blocker is closed, the submitter only when SubmitResult returned false or done is closed, and then they do |
| Pipeline.DeadConn | server/internal/client/client.go:243-246 | once the connection is destroyed no job is read and no response goes through |
| Pipeline.ResponseDelivered | server/internal/client/client.go:283-301 | while the connection lives and the submitter has not quit, the oldest response in the channel can be brought to the client |
| Pipeline.DestroyTerminates | server/internal/client/client.go:230-301 | after destroy each goroutine can move until it quits, but for a getter that waits in SubmitJob, and each of their steps lowers a rank of at most five that nothing raises |
| Pipeline.FinishedIsFinal | server/internal/client/client.go:230-301 | once both have quit they stay so, and nothing more is submitted |
| WorkerPool.RunKeepsInv | server/internal/worker/worker.go:43-96 | in every reachable state real jobs precede sentinels, and the counts agree with the workers |
| WorkerPool.Conservation | server/internal/worker/worker.go:62-91 | in every run, the jobs of any kind submitted are those queued, in hand and executed |
| WorkerPool.BusyRange | server/internal/worker/worker.go:79-96 | the busy counter stays in [0, workers] |
| WorkerPool.Destroyed | server/internal/worker/worker.go:70-91 | when Destroy returns every worker has quit, each sentinel was consumed, nobody is busy, and with a worker the queue is empty |
| WorkerPool.DrainedByDestroy | server/internal/worker/worker.go:70-91 | when Destroy returns, every submitted job of any kind was executed exactly once if and only if there was a worker or no such job |
| WorkerPool.UndrainedExample | server/internal/worker/worker.go:70-91 | a run of a pool without workers after which Destroy has returned and the one job was not executed |
| WorkerPool.DestroyDecreases | server/internal/worker/worker.go:70-91 | during Destroy every step brings its return nearer |
| WorkerPool.DestroyNeverStuck | server/internal/worker/worker.go:70-91 | until Destroy returns some step of it or of a worker can be taken |
| Server.RegistryObject.constructor | server/server.go:211-229 | running, no listeners |
| Server.RegistryObject.AddListener | server/server.go:607-619 | refused exactly after shutdown and for a listener already there, else a new empty entry |
| Server.RegistryObject.Spawn | server/server.go:706-717 | refused exactly after shutdown, a panic exactly for a missing listener, else the handle is entered |
| Server.RegistryObject.Forget | server/server.go:723-728 | removes the handle from its listener's entry and changes no other |
| Server.RegistryObject.Close | server/server.go:788-811 | the second call fails and changes nothing; the first empties the registry and destroys exactly the handles in it |
| Server.RunKeepsSafe | server/server.go:607-811 | the invariant of registry, connections and pools holds in every reachable state of the whole server |
| Server.RunLinked | server/internal/client/client.go:262-281 | each connection's counts of queued and executing jobs are those of its jobs in all pools together |
| Server.NoWorkerBlocks | server/internal/client/client.go:62-87 | in the whole server, every busy worker can commit, and every idle worker with something queued can take it |
| Server.OutstandingBound | server/internal/client/client.go:112-114 | no connection ever has more than 1024 jobs queued, executing and unread over all pools |
| Server.RegistrySafe | server/server.go:708-729 | no write to a missing listener entry, no connection or listener after shutdown, no job submitted behind a pool's sentinels |
| Server.RegistryExact | server/server.go:708-729 | every handle in the registry is served by a goroutine of spawn, and until Close begins every handle served is in it |
| Server.SpawnDecides | server/server.go:708-729 | an accepted connection is spawned unless Close has begun, and forgotten when it has quit; its goroutine then ends |
| Server.AllQuitBeforePools | server/server.go:788-811 | once Close has torn the listeners down both goroutines of every handle ever spawned have quit, and no pool is destroyed before |
| Server.PoolRunExec | server/internal/worker/worker.go:43-91 | the steps of any server run that touch a pool are a run of that pool by itself, ending in its state |
| Server.JobsDone | server/server.go:788-811 | once Close has destroyed a pool, every job any connection submitted to it was executed and committed exactly once, if and only if it has a worker or there was no such job |
| Requests.ConnRunExec | server/internal/client/client.go:187-301 | the steps of any server run that touch a connection are a run of that connection by itself, ending in its state |
| Requests.RequestsAccounted | server/internal/client/client.go:262-301 | the requests a connection has read are at all times exactly those with its getter, in the pools, in its channel, with its submitter and replied to, but for at most one dropped when it is destroyed |
| Shutdown.SubmitMoves | server/internal/worker/worker.go:62-64 | a getter in SubmitJob can go on, or a worker of its full pool can, if and only if the pool has room or a worker |
| Shutdown.StuckForever | server/internal/client/client.go:262-281 | a getter at a full pool without workers stays there in every continuation, and Close never tears the listeners down |
| Shutdown.CloseHangs | server/server.go:788-811 | for every configuration with a pool without workers, a run after which Close waits for such a getter |
| Shutdown.TeardownRank | server/server.go:797-808 | while Close tears down no step undoes progress: listeners and handles only get fewer, and no connection has more than nine steps of its own left, ever fewer |
| Shutdown.CloseCompletes | server/server.go:788-811 | if every pool has a worker, every run in which Close has begun can be continued to its end |
| Shutdown.CloseCompletesIff | server/server.go:788-811 | every run in which Close has begun can be continued to its end if and only if every pool has a worker |

## Left out

- TLS, sockets, deadlines, key stores, configuration, RPC, tracing and metrics: the network is an octet sequence or succeeds and fails freely.
- `client/client.go` and `client/remote.go`: choosing and dialling servers, and their latency order.
- Opcode tables, names and hash choices: finite tables.
- Curve point arithmetic, SHA, AES-CTR and ASN.1: the group is any group of prime order, and draws are given.
- The internals of `big.Int`: exponentiation and greatest common divisors are their mathematical values, the latter with Euclid's coefficients.
- Timing: only results are stated, not that they take constant time.
- That the client's map holds only live operations: an operation whose write fails leaves its entry behind (conn/conn.go:258-275).
- That shutdown destroys every pool: `server/worker_pool.go:110-118` passes over two of them, and a step of the model may destroy any pool or none.
- Fairness: the results say that a step is possible and brings the end nearer, or that a run can be continued to its end, not that the scheduler does so.
- Several concurrent calls of `Server.Close` or of a handle's Destroy: the effective one is modelled, the others return.
- The job channel of `WorkerPool` and the channel of `NonceChannel` are sequences in a state machine, not objects updated in place.
- Decoding.UnmarshalBinary: does not state which fields an operation has after a failed decoding, nor that decoded slices share the body's memory.
- Ecdsa.Sign: compares curves by a name that stands for the identity the source compares.
- Multiplexer.Conn.Close: does not model the error of closing the socket.
- Server.RegistryObject.Close: has the fields only; the wait for each handle and the destruction of the pools are steps of the machine in `Server` and `Shutdown`.
