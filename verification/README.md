# A verified model of the two-party TLS notary

A notary and a client share one TLS connection. Neither holds its keys: every block cipher call,
every SHA-256 compression and every GHASH chain runs as an authenticated garbled circuit on XOR
shares. This project models that machinery in Dafny and proves what it computes, layer by layer,
each layer discharging what the next one assumes.

1. **Authenticated garbling engine.** `Network` is two sequential processes and two FIFO channels;
   `Parties` gives the garbler, the evaluator and the wire preprocessor as processes, message by
   message; `Garbler`, `Evaluator` and `PreProcessor` are the imperative classes, each operation and
   each whole session proved to send, read and return exactly what its process does (`Tape`).
   `Engine` and `JointRun` prove the joint theorem: for every circuit, inputs, label hash and honest
   preprocessing, in every interleaving, no party aborts and the evaluator ends with the clear
   evaluation. `Exchange` carries it over to the two party objects. `HonestStart` shows the assumed
   setup can be met for every circuit.
2. **Circuits.** `CompressBuilder` and `Compression` are the generator of the SHA-256 compression
   circuit, proved against `Sha256`, a reading of FIPS 180-4 on 32-bit strings; `Roots` proves that
   its tables are the roots of the first primes that the standard asks for. `GhashCircuit` is the
   GHASH multiplication and chain on a recording backend (`Backend`), proved against `Ghash`, which
   holds the polynomial definition and the field algebra. `MaskedRun` is the XOR/mask wrapper and a
   masked run of it through the engine. `Words`, `Bits`, `Bytes` and `Circuit` hold the arithmetic and
   gate-list semantics all of this uses.
3. **Protocols on shares.** `Hmac` and `Hkdf` state HMAC, HKDF and the TLS 1.3 schedule for one party
   over an arbitrary compression function (`HkdfLabels` reads its messages back), and prove that the
   two-party versions give shares of the same; `HmacParties` and `HkdfParties` are the two programs.
   `Gcm` and `GcmParties` do the same for split-key AES-GCM over an arbitrary cipher; `GcmParties`
   also records what each side does on its connection, in order (`Ops`). `Programs` runs two such
   lists of joint calls and blocks on one connection, every joint call being a masked session with all
   its messages. On it `CompressCalls` proves two-party HMAC and the whole key schedule as engine
   runs, and `GcmOrder` when split-key GCM can finish and with what result; `GcmCalls` and
   `GhashShares` are the cipher block and the GHASH chain as sessions.
4. **Codecs and logs.** `TlsWire` (record and handshake printers and the two parsers), `KeyShare` (the
   two readers of the server's X25519 key), `Transcript` (the handshake hash as notary and guest
   rebuild it), `Bridge` (operation headers, the notary's worker loop and log, the client's side) and
   `Bundle` (the signed bytes, signing, verification).

## What is assumed

- Channel messages are typed; a message of another type than expected is an abort of the reader.
- The authenticated-share library is not part of this model. A share is a bit, a MAC on it and a key
  for the peer's bit; opening sends bit and MAC, and is checked against the key. Shares of public
  constants and the label hash are an arbitrary `Library` that satisfies `ConstantsPaired`; known
  triples are ideal (`KnownTriples`). Of the garbler's offset only its last bit is assumed to be one,
  the low bit in most-significant-first order (`Shares.LsbIsOdd`). Randomness is an arbitrary function.
- AES and the hash in the log and the transcript are arbitrary functions; the signature scheme is
  ideal. Joint compressions, cipher blocks and GHASH chains enter the share-level theorems as the
  relations `Honest`, `HonestAes` and `HonestChain`. `CompressCalls.SessionsHonest`,
  `GcmCalls.AesReplyShares` and `GcmCalls.ChainReplyShares` establish them for sessions of the
  engine, and the rows of `CompressCalls` and `GcmOrder` speak of those sessions only.
- A circuit that computes the cipher is assumed where one is needed (`ComputesCipher`); the
  compression and GHASH circuits are the generated ones.
- The traffic that prepares a session (oblivious transfer, shares, triples) is not on the modelled
  connection; a session starts from what it leaves.

## Where the code does not do the expected thing

- **Split-key decryption returns the key stream.** Both sides add the ciphertext block, which
  cancels. `Gcm.SplitDecryptAsWritten` proves that a wrong tag is always rejected and the right one
  always accepted, and that the returned bytes are the plaintext exactly when the ciphertext is all
  zeros; `Gcm.DecryptLosesPlaintext` is one byte that shows it. The ignored round-trip test states
  the intent.
- **The GCM functions use the connection in an order that cannot finish.** In encryption the client
  reads a block where the notary starts the joint call of that block: it takes the label that opens
  the call for the block, and then both wait. In decryption the client sends a block there, which the
  notary takes for an opened share and rejects. As written, either can finish exactly when there is no
  text (`GcmOrder.EncryptFinishesWhen`, `GcmOrder.DecryptFinishesWhen`). With the client's read or write
  after its joint call, every interleaving finishes (`GcmOrder.ReorderedEncrypts`,
  `GcmOrder.ReorderedDecrypts`). A block travels as a label here, the 128-bit message of the
  connection.
- **Version 0 bundles are signed over bytes that are not the ones verified**: a freshly signed bundle
  verifies exactly when its version is at least 1 (`Bundle.SignThenVerify`). Over all versions, a
  signature verifies only the signed bundle, except that a bundle of version 0 may also pass when every
  byte of the public key equals the signed version (`Bundle.VerifiesOnlyItself`).
- **The guest hashes a fixed number of handshake messages**, the notary all of them up to Finished.
  Their hashes agree exactly on flights of four messages that the guest accepts, or when both refuse
  (`Transcript.GuestAndNotaryAgree`); a CertificateRequest, a fifth message, makes them differ
  (`Transcript.CertificateRequestExample`).
- **A header's associated-data length is cut to 16 bits**: reading returns the written header exactly
  when it fits (`Bridge.HeaderRoundTrip`).
- **The guest and the notary parse handshake bytes differently** after the last whole message
  (`TlsWire.ParsersCompared`).
- **The notary may read a server key past the end of its extension.** It bounds the 32 bytes by the
  extension list, the guest by the extension. On lists with one extension of each type they agree
  exactly when no announced key ends after its extension (`KeyShare.ReadersAgree`,
  `KeyShare.OverrunExample`).
- **The schedule adds the message-schedule terms in pairs**, FIPS 180-4 from the left; `Words.AddModAssoc`
  is why the words agree.

## Model

| member | source | states |
|---|---|---|
| JointRun.EveryRunIsCorrect | notary/deps/swanky-authenticated-garbling/src/tests.rs:55-81 | From an honest setup, after any interleaved steps so far: no party has aborted, the run can be completed, a completed run leaves the evaluator with exactly the clear evaluation and uses one share per input and AND and one triple per AND, and a run that is stuck is completed |
| JointRun.SomeRunFinishes | notary/deps/swanky-authenticated-garbling/src/tests.rs:55-81 | One schedule runs the whole protocol to the correct end |
| Network.EveryScheduleFinishes | notary/deps/swanky-authenticated-garbling/src/tests.rs:58-77 | Confluence of two processes on FIFO channels: when one schedule finishes, none aborts, none is longer, and each partial one finishes in the same state |
| Network.Diamond | notary/deps/swanky-authenticated-garbling/src/tests.rs:58-77 | The two parties' steps commute |
| Network.AnyFirstStep | notary/deps/swanky-authenticated-garbling/src/tests.rs:58-77 | Any enabled first step leaves a schedule to the same end, one step shorter |
| HonestStart.TriplesExist | notary/deps/swanky-authenticated-garbling/src/preprocesser/mod.rs:92-104 | For every circuit and consistent shares there are triples that make the setup honest |
| HonestStart.SetupExists | notary/deps/swanky-authenticated-garbling/src/preprocesser/mod.rs:77-104 | Every well-formed circuit has an honest setup |
| HonestStart.SharesExist | notary/deps/swanky-authenticated-garbling/src/preprocesser/mod.rs:77-84 | Consistent shares of any length exist |
| HonestStart.SomeLibraryPaired | notary/deps/swanky-authenticated-garbling/src/garbler.rs:243-246 | Public-constant shares that are consistent and share the constant exist |
| Engine.XorWire | notary/deps/swanky-authenticated-garbling/src/evaluator.rs:148-154 | XOR keeps the cross-party wire invariant and computes exclusive or |
| Engine.NegateWire | notary/deps/swanky-authenticated-garbling/src/evaluator.rs:140-146 | Negation keeps the wire invariant and computes not, given the label sent for one |
| Engine.ConstantWire | notary/deps/swanky-authenticated-garbling/src/garbler.rs:359-373 | A constant wire satisfies the wire invariant |
| Engine.EvaluatedLabelOffset | notary/deps/swanky-authenticated-garbling/src/evaluator.rs:181-210 | The evaluator's label is the garbler's zero label plus delta times an explicit combination of masks and masked values |
| Engine.AndWire | notary/deps/swanky-authenticated-garbling/src/evaluator.rs:156-256 | With a triple that is the product of the operands' masks and a delta whose last bit is one, AND keeps the wire invariant for the conjunction, the masked value being the sum of the last bits of the two labels |
| Engine.ValidationAccepted | notary/deps/swanky-authenticated-garbling/src/garbler.rs:237-268 | The validation share of an honest AND opens to zero on both sides |
| Engine.AndReaches | notary/deps/swanky-authenticated-garbling/src/garbler.rs:159-275 | All messages of an AND are read in the order written and both sides come out with the invariant |
| Engine.NextTriple | notary/deps/swanky-authenticated-garbling/src/preprocesser/mod.rs:92-104 | The next triple online is the product of the masks of the operands of exactly this AND |
| Engine.ExecReaches | notary/deps/swanky-authenticated-garbling/src/tests.rs:64-75 | Both parties get through any gate list, cursors in lockstep, every wire in the invariant with its clear value |
| JointRun.GarblerInputs | notary/deps/swanky-authenticated-garbling/src/garbler.rs:297-336 | The garbler's inputs arrive as wires in the invariant for those bits |
| JointRun.EvaluatorInputs | notary/deps/swanky-authenticated-garbling/src/evaluator.rs:262-297 | The evaluator's inputs arrive as wires in the invariant for those bits |
| JointRun.OutputsReach | notary/deps/swanky-authenticated-garbling/src/evaluator.rs:344-363 | Opening the garbler's output shares gives the evaluator the clear bits |
| Shares.XorPaired | notary/deps/swanky-authenticated-garbling/src/garbler.rs:281 | The exclusive or of consistent shares is consistent and shares the exclusive or |
| Shares.MulPaired | notary/deps/swanky-authenticated-garbling/src/garbler.rs:250-251 | A share times a public bit is consistent and shares the product |
| Shares.OpeningAccepted | notary/deps/swanky-authenticated-garbling/src/garbler.rs:257-262 | The honest opening of a consistent share is accepted by either side |
| Shares.OnlyItsBit | notary/deps/swanky-authenticated-garbling/src/garbler.rs:257-262 | Opening a consistent share with its own MAC: exactly the share's bit is accepted, unless the other side's delta is zero |
| Shares.LsbIsOdd | notary/deps/swanky-authenticated-garbling/src/evaluator.rs:212-214 | The low bit of a label is the one that makes it odd as a number |
| GarblerParty.Garbler.And | notary/deps/swanky-authenticated-garbling/src/garbler.rs:159-275 | Sends, reads, advances its cursors and returns or aborts exactly as the garbler's AND process, for every incoming tape |
| GarblerParty.Garbler.GarbleGate | notary/deps/swanky-authenticated-garbling/src/garbler.rs:172-216 | The two rows and the zero label |
| GarblerParty.Garbler.EncodeMany | notary/deps/swanky-authenticated-garbling/src/garbler.rs:297-336 | As its process, including a failed opening and an input above one |
| GarblerParty.Garbler.ReceiveMany | notary/deps/swanky-authenticated-garbling/src/garbler.rs:338-357 | As its process |
| GarblerParty.Garbler.EncodeWirelabels | notary/deps/swanky-authenticated-garbling/src/garbler.rs:123-152 | Draws one zero label per value, sends the labels of the masked values in order, keeps the zero labels |
| GarblerParty.Garbler.Constant | notary/deps/swanky-authenticated-garbling/src/garbler.rs:359-373 | As its process |
| GarblerParty.Garbler.Outputs | notary/deps/swanky-authenticated-garbling/src/garbler.rs:385-393 | Sends the openings of the output shares |
| GarblerParty.Garbler.NextAuthShare | notary/deps/swanky-authenticated-garbling/src/garbler.rs:106-110 | The share at the cursor, and the cursor advanced; past the end an abort |
| GarblerParty.Garbler.Exec | notary/deps/swanky-authenticated-garbling/src/tests.rs:64 | The loop over any gate list sends, reads and returns or aborts exactly as the garbler's process for the list |
| GarblerParty.RunGarbler | notary/deps/swanky-authenticated-garbling/src/tests.rs:58-66 | A new garbler taken through construction, both inputs, the circuit and the outputs behaves as the garbler's process of the joint theorem, for every incoming tape |
| EvaluatorParty.Evaluator.And | notary/deps/swanky-authenticated-garbling/src/evaluator.rs:156-256 | Reads, sends, advances and returns or aborts exactly as the evaluator's AND process, for every incoming tape |
| EvaluatorParty.Evaluator.EncodeMany | notary/deps/swanky-authenticated-garbling/src/evaluator.rs:262-297 | As its process |
| EvaluatorParty.Evaluator.ReceiveMany | notary/deps/swanky-authenticated-garbling/src/evaluator.rs:299-318 | As its process |
| EvaluatorParty.Evaluator.Constant | notary/deps/swanky-authenticated-garbling/src/evaluator.rs:320-332 | As its process |
| EvaluatorParty.Evaluator.Outputs | notary/deps/swanky-authenticated-garbling/src/evaluator.rs:344-363 | As its process: checks every opening, then unmasks |
| EvaluatorParty.Evaluator.Exec | notary/deps/swanky-authenticated-garbling/src/tests.rs:74 | The same loop for the evaluator |
| EvaluatorParty.RunEvaluator | notary/deps/swanky-authenticated-garbling/src/tests.rs:67-76 | A new evaluator taken through a whole session behaves as the evaluator's process of the joint theorem |
| Exchange.TapesUnique | notary/deps/swanky-authenticated-garbling/src/tests.rs:58-77 | If two parties run alone on tapes that are each other's output, and some run of both finishes, they end as it does |
| Exchange.ObjectsCompute | notary/deps/swanky-authenticated-garbling/src/tests.rs:58-81 | Two party objects that were given exactly what the other sent, from an honest setup: both succeed, nothing is left unread, and the evaluator returns the clear evaluation |
| Exchange.ExchangeExists | notary/deps/swanky-authenticated-garbling/src/tests.rs:58-81 | And there is such an exchange |
| Exchange.FlippedOutputStops | notary/deps/swanky-authenticated-garbling/src/evaluator.rs:344-363 | With one opened output bit flipped under its MAC, whatever the other messages, the evaluator does not return |
| PreProcessing.WirePreProcessor.And | notary/deps/swanky-authenticated-garbling/src/preprocesser/wire.rs:81-92 | Records both operand shares and hands out the next share |
| PreProcessing.WirePreProcessor.ReceiveMany | notary/deps/swanky-authenticated-garbling/src/preprocesser/wire.rs:102-113 | Inputs take the next shares in order |
| PreProcessing.PreprocessCircuit | notary/deps/swanky-authenticated-garbling/src/preprocesser/mod.rs:77-104 | One recorded operand pair per AND; of the generated shares, those of the constants stay unused |
| PreProcessing.TripleBudget | notary/deps/swanky-authenticated-garbling/src/preprocesser/mod.rs:62-75 | At least one triple per AND, none without AND, never between 1 and 319 |
| CompressBuilder.Builder.constructor | notary/src/bin/gen_sha256_compress.rs:57-85 | Starts with the two constant wires |
| CompressBuilder.Builder.ConstantWires | notary/src/bin/gen_sha256_compress.rs:65-83 | The constant wires carry zero and one on every input |
| CompressBuilder.Builder.ConstantU32 | notary/src/bin/gen_sha256_compress.rs:126-134 | The selected constant wires read as the value, on every input |
| CompressBuilder.ValKept | notary/src/bin/gen_sha256_compress.rs:93-113 | Appending gates leaves the value of every earlier wire unchanged |
| CompressBuilder.WireEquation | notary/src/bin/gen_sha256_compress.rs:93-124 | Every gate's wire carries the gate's function of its operand wires |
| CompressBuilder.Bitwise | notary/src/bin/gen_sha256_compress.rs:183-205 | The new wires carry the bitwise function of the operand words, on every input |
| CompressBuilder.RotrReads | notary/src/bin/gen_sha256_compress.rs:208-215 | Rewiring reads as rotation to the right, for every amount |
| CompressBuilder.ShrU32 | notary/src/bin/gen_sha256_compress.rs:218-225 | Reads as a logical right shift, for every amount |
| CompressBuilder.AddU32 | notary/src/bin/gen_sha256_compress.rs:229-243 | Appended to any valid builder, the output wires read as the sum modulo 2^32, on every input |
| CompressBuilder.FullAdderStep | notary/src/bin/gen_sha256_compress.rs:235-241 | One more full adder extends the ripple by one bit to the left |
| Words.RippleAdds | notary/src/bin/gen_sha256_compress.rs:229-243 | Sum bits plus carry out have the value of the two summands |
| Words.RippleIsAddMod | notary/src/bin/gen_sha256_compress.rs:227-243 | Dropping the carry out is addition modulo 2^n |
| Words.Sum | notary/src/bin/gen_sha256_compress.rs:227-243 | The word sum that the circuit is compared with has the value of the summands' sum modulo 2^n |
| Words.AddModAssoc | notary/src/bin/gen_sha256_compress.rs:327-332 | Modular addition is associative |
| Compression.ChGates | notary/src/bin/gen_sha256_compress.rs:247-253 | The gates give Ch, on every input |
| Compression.MajGates | notary/src/bin/gen_sha256_compress.rs:255-262 | The gates give Maj |
| Compression.BigSigma0Gates | notary/src/bin/gen_sha256_compress.rs:264-270 | The gates give the first big sigma |
| Compression.BigSigma1Gates | notary/src/bin/gen_sha256_compress.rs:272-278 | The gates give the second big sigma |
| Compression.SmallSigma0Gates | notary/src/bin/gen_sha256_compress.rs:280-286 | The gates give the first small sigma |
| Compression.SmallSigma1Gates | notary/src/bin/gen_sha256_compress.rs:288-294 | The gates give the second small sigma |
| Compression.NextScheduleWord | notary/src/bin/gen_sha256_compress.rs:326-333 | One more word of the message schedule, on every block |
| Compression.RoundGates | notary/src/bin/gen_sha256_compress.rs:339-361 | The gates give one round of the working variables |
| Compression.BuildCompression | notary/src/bin/gen_sha256_compress.rs:310-383 | The output wires carry the compression of chaining value and block, for all 768-bit inputs |
| Compression.Write | notary/src/bin/gen_sha256_compress.rs:139-168 | After the passthrough gates the last wires repeat the output wires, on every input |
| Compression.GenerateSha256Compress | notary/src/bin/gen_sha256_compress.rs:459-473 | The written gate list is well formed and its last 256 wires are the compression function of section 6.2.2 of FIPS 180-4 on every chaining value and block |
| Roots.RoundConstants | notary/src/bin/gen_sha256_compress.rs:297-306 | For each of the 64 entries: a 32-bit number is that entry exactly if it is the first 32 bits of the fractional part of the cube root of the prime of that position, as section 4.2.2 of FIPS 180-4 says |
| Roots.FirstPrimes | notary/src/bin/gen_sha256_compress.rs:297-306 | The primes of that table are all primes up to 311 |
| Compression.WrittenCompresses | notary/src/bin/gen_sha256_compress.rs:139-168 | Compression on the output wires, repeated at the end, is what the circuit computes |
| MaskedRun.ExecuteWrapped | notary/src/garble.rs:83-112 | The gates the wrapper asks of a backend, and the wires it returns |
| MaskedRun.WrappedOutput | notary/src/garble.rs:83-112 | For any inner circuit: output of the wrapper is the inner output on the summed shares plus both masks |
| MaskedRun.ClientShare | notary/src/garble.rs:124-132 | Output bits to bytes, 32 made and the mask's worth kept |
| MaskedRun.BitsToBytes | notary/src/garble.rs:124-132 | Most significant bit first; missing bits are zero, further ones dropped |
| MaskedRun.BytesToBits | notary/src/garble.rs:208-212 | Most significant bit first |
| Bytes.PackUnpack | notary/src/garble.rs:124-132 | Packing undoes unpacking |
| Bytes.UnpackPack | notary/src/garble.rs:208-212 | Unpacking undoes packing |
| MaskedRun.MaskedRunShares | notary/src/garble.rs:196-246 | In every interleaving a masked run never aborts and ends with the notary's mask and the client's bytes XOR shares of the inner output on the summed inputs |
| MaskedRun.CompressRunShares | notary/src/hkdf.rs:236-304 | A masked run of the generated circuit gives shares of the compression of the summed arguments |
| CompressCalls.CompressReply | notary/src/hkdf.rs:236-304 | One session on the generated circuit leaves the two sides with shares of the compression of the summed arguments |
| CompressCalls.SessionsHonest | notary/src/hkdf.rs:236-304 | Any number of such sessions, each client argument depending on the replies before it, leave an honest run of all the calls |
| CompressCalls.HmacRuns | notary/src/hkdf.rs:359-411 | Four sessions: for every key split and message of at most 55 bytes, in every interleaving of all their messages no party aborts, the run can be completed, and the two sides then hold shares of HMAC-SHA-256 |
| CompressCalls.TrafficRuns | notary/src/hkdf.rs:671-792 | Forty sessions: for every split of the key material, in every interleaving no party aborts, the run can be completed, and the shares of keys and IVs add up to those of the reference schedule |
| CompressCalls.CompressSessionsExist | notary/src/hkdf.rs:236-304 | For any masks of the notary there are honest sessions on the generated circuit, so the two rows above are not empty |
| Ghash.MulIsRemainder | notary/src/ghash.rs:40-71 | The bit-serial product is the product of polynomials modulo x^128 + x^7 + x^2 + x + 1, in the bit order of section 6.3 of SP 800-38D |
| Ghash.DivisionIdentity | notary/src/ghash.rs:40-71 | Every polynomial is quotient times modulus plus that remainder |
| Ghash.RemainderUnique | notary/src/ghash.rs:40-71 | No other polynomial of degree below 128 is |
| Ghash.MulBilinear | notary/src/ghash.rs:40-71 | The product distributes over addition on both sides |
| Ghash.MulComm | notary/src/ghash.rs:40-71 | The product is commutative |
| Ghash.MulAssoc | notary/src/ghash.rs:40-71 | The product is associative |
| Ghash.MulReference | notary/src/ghash.rs:259-284 | The reference loops compute that product |
| Ghash.ChainReference | notary/src/ghash.rs:286-292 | The reference chain |
| Ghash.GhashIsWeightedSum | notary/src/ghash.rs:286-292 | The chain is the sum of block i times H^(n-i+1), for every number of blocks |
| Ghash.GhashLinear | notary/src/ghash.rs:286-292 | The chain is linear in the block list |
| GhashCircuit.ExecuteMul | notary/src/ghash.rs:40-71 | The multiplication circuit computes the product on every input |
| GhashCircuit.AddMultiple | notary/src/ghash.rs:57-60 | One row of the circuit adds the masked multiple |
| GhashCircuit.ShiftReduceWires | notary/src/ghash.rs:61-68 | The rewiring and four gates multiply by x |
| GhashCircuit.ExecuteChain | notary/src/ghash.rs:110-132 | The chain circuit computes GHASH on every input, for every number of blocks |
| GhashShares.ChainRunShares | notary/src/ghash.rs:209-256 | For every split of H and of the blocks, in every interleaving, the wrapped chain gives shares of GHASH |
| Hmac.HmacMessageShares | notary/src/hkdf.rs:359-411 | For every key split and message of at most 55 bytes, the output shares add up to HMAC of section 2 of RFC 2104 |
| Hmac.HmacXorMessageShares | notary/src/hkdf.rs:504-573 | The same for an XOR-shared 32-byte message |
| Hmac.InnerBlock | notary/src/hkdf.rs:318-334 | The notary's padding and the client's bytes rebuild the padded block of section 5.1.1 of FIPS 180-4 |
| Hmac.ShaTwoBlocks | notary/src/hkdf.rs:376-387 | A message of one full block and at most 55 bytes hashes by two compressions of the padded blocks |
| Roots.InitialChainingValue | notary/src/hkdf.rs:46-49 | Each word of the initial chaining value is the first 32 bits of the fractional part of the square root of one of the first eight primes, as section 5.3.3 of FIPS 180-4 says |
| Hmac.HonestHmacExists | notary/src/hkdf.rs:359-411 | For any masks of the notary the four compressions have an honest run |
| HmacParties.NotaryHmac | notary/src/hkdf.rs:359-388 | The notary's four calls and its result; a panic exactly when the message is over 55 bytes |
| HmacParties.NotaryHmacXorMsg | notary/src/hkdf.rs:513-542 | The notary's four calls for a shared message |
| HmacParties.ClientHmac | notary/src/hkdf.rs:391-411 | The client's four calls and its result; the same panic |
| HmacParties.ClientHmacXorMsg | notary/src/hkdf.rs:554-573 | The client's four calls for a shared message |
| HmacParties.NotaryKeyBlocks | notary/src/hkdf.rs:365-374 | Inner and outer key blocks |
| HmacParties.NotaryPadding | notary/src/hkdf.rs:318-325 | The padding part of the last block, or the panic |
| HmacParties.ClientMessage | notary/src/hkdf.rs:329-334 | The message part of the last block, or the panic |
| HmacParties.OuterSuffixPadding | notary/src/hkdf.rs:339-345 | The padding of the outer message |
| Hkdf.TrafficSharesCorrect | notary/src/hkdf.rs:671-792 | For every split of the key material and pair of transcript hashes the parties' key and IV shares add up to the traffic keys and IVs of one party |
| Hkdf.ScheduleShares | notary/src/hkdf.rs:671-792 | Each of the ten HMACs leaves shares of what one party would compute |
| Hkdf.TrafficResults | notary/src/hkdf.rs:621-644 | The ten steps are the reference schedule of section 7.1 of RFC 8446 |
| HkdfLabels.InfoReadsBack | notary/src/hkdf.rs:443-453 | For every name, context and length that fit, a reader of the HkdfLabel structure of section 7.1 of RFC 8446 finds the length, the bytes of "tls13 " followed by the name, the context, and then the counter 1 |
| HkdfLabels.KeyAndIvInfo | notary/src/hkdf.rs:443-453 | The messages for key and IV, byte by byte |
| HkdfParties.LabelInfo | notary/src/hkdf.rs:443-453 | The code that builds such a message |
| Hkdf.MessageAt | notary/src/hkdf.rs:443-453 | Every message of the schedule fits one block, so no length assertion fires |
| Hkdf.HonestScheduleExists | notary/src/hkdf.rs:671-792 | For any forty masks of the notary the schedule has an honest run |
| HkdfParties.NotaryTraffic | notary/src/hkdf.rs:671-730 | With forty replies exactly the forty calls of the schedule and the key and IV shares; never a panic |
| HkdfParties.ClientTraffic | notary/src/hkdf.rs:733-792 | The same on the client's side, call for call |
| Gcm.SplitEncryptIsGcm | notary/src/aes.rs:180-286 | For every key split, nonce, data and plaintext of any length the client's ciphertext and tag are those of section 7.1 of SP 800-38D under the summed key |
| Gcm.CounterBlocks | notary/src/aes.rs:495-500 | The counter blocks that the code builds are the pre-counter block of section 7.1 of SP 800-38D for counter 1 and, for each next counter, the block incremented as in section 6.2, also where it wraps around |
| Gcm.LengthsOf | notary/src/aes.rs:288-293 | The length block holds both lengths in bits, that of the data first |
| Gcm.CiphertextIsGctr | notary/src/aes.rs:260-276 | The assembled ciphertext is counter mode under the summed key stream |
| Gcm.TextBlocksAreCiphertext | notary/src/aes.rs:210-220 | The parties' zero-padded parts add up to the padded ciphertext blocks |
| Gcm.GhashInput | notary/src/aes.rs:200-225 | The block list is the padded string of the standard, cut in blocks |
| Gcm.GctrInverse | notary/src/aes.rs:508-544 | Counter mode of section 6.5 undoes itself, from any initial counter block |
| Gcm.SplitDecryptAsWritten | notary/src/aes.rs:303-419 | Accepts exactly the tag of the standard; returns the key stream, which is the plaintext exactly when the ciphertext is all zeros |
| Gcm.DecryptLosesPlaintext | notary/src/aes.rs:303-419 | On the ciphertext byte 1 with its right tag, for every key split, nonce and data, the client accepts and returns something other than the plaintext |
| Gcm.HonestGcmExists | notary/src/aes.rs:180-419 | For any masks of the notary both operations have an honest run |
| GcmParties.NotaryEncryptGcm | notary/src/aes.rs:180-231 | The notary's cipher calls, chain call and sent blocks, and the order of all of them on its connection |
| GcmParties.ClientEncryptGcm | notary/src/aes.rs:233-286 | The client's calls and result from what it read, and the order of calls and reads |
| GcmParties.NotaryDecryptGcm | notary/src/aes.rs:303-351 | The notary's calls and answers, and the order of calls, reads and sends |
| GcmParties.ClientDecryptGcm | notary/src/aes.rs:353-419 | The client's calls, sent blocks and acceptance, and the order of calls, sends and reads |
| GcmCalls.AesReplyShares | notary/src/aes.rs:44-73 | A session on a circuit that computes the cipher leaves shares of the cipher of the summed block under the summed key |
| GcmCalls.ChainReplyShares | notary/src/ghash.rs:308-345 | A session on the chain circuit is one honest joint chain |
| GcmOrder.ReorderedEncrypts | notary/src/aes.rs:180-286 | With each read of the client after the joint call of its block: for every key split, nonce, data and plaintext, in every interleaving of all messages no party aborts, the run can be completed, and the client then holds the ciphertext and tag of the standard |
| GcmOrder.EncryptFinishesWhen | notary/src/aes.rs:180-286 | In the order of the two functions some run of encryption finishes exactly when the plaintext is empty |
| GcmOrder.EncryptNeverFinishes | notary/src/aes.rs:210-276 | With a plaintext no run in that order does |
| GcmOrder.ReorderedDecrypts | notary/src/aes.rs:303-419 | With each block of the client sent after the joint call of its block: in every interleaving the run can be completed, and the client then rejects exactly a wrong tag and otherwise has the key stream |
| GcmOrder.DecryptFinishesWhen | notary/src/aes.rs:303-419 | In the order of the two functions some run of decryption finishes exactly when the ciphertext is empty |
| GcmOrder.DecryptNeverFinishes | notary/src/aes.rs:329-402 | With a ciphertext no run in that order does |
| GcmOrder.HonestJobExists | notary/src/aes.rs:44-73 | For every cipher and chain circuit and any masks there are honest sessions for all joint calls of an operation |
| Programs.MatchedProgramsRun | notary/src/garble.rs:196-246 | Two lists of joint calls and blocks that meet everywhere, on one connection and honest sessions: in every interleaving no party aborts, the run can be completed, and the client returns what the calls compute |
| Programs.JointMeetsGet | notary/src/aes.rs:260-265 | A client that reads a block where the notary starts a joint call: no run finishes |
| Programs.JointMeetsPut | notary/src/aes.rs:385-402 | A client that sends a block where the notary starts a joint call: no run finishes |
| TlsWire.ParsePrintedRecords | guest/src/main.rs:649-675 | Parsing printed records returns them, whatever tail shorter than a header follows |
| TlsWire.PrintParsedRecords | guest/src/main.rs:649-675 | Printing parsed records gives the input back up to such a tail |
| TlsWire.ParseRecordsLoop | notary/src/transcript.rs:19-38 | The loop of both record parsers, with the truncated payload as failure |
| TlsWire.ParsePrintedMessages | guest/src/main.rs:721-746 | Both handshake parsers return printed messages |
| TlsWire.PrintGuestParsed | guest/src/main.rs:721-746 | Printing what the guest parsed gives exactly the input back |
| TlsWire.ParsersCompared | notary/src/transcript.rs:80-96 | The parsers fail together on a cut body; the guest accepts exactly when the notary does and nothing is left over, with the same messages |
| TlsWire.NotaryParseLoop | notary/src/transcript.rs:80-96 | The notary's loop |
| TlsWire.GuestParseLoop | guest/src/main.rs:721-741 | The guest's loop, with its two errors |
| KeyShare.KeysFirst | guest/src/main.rs:936-963 | What each reader does with one printed extension in front of any bytes: the guest gives up on a stub and takes an offered key, the notary takes a key that may run into the bytes that follow |
| KeyShare.GuestReturns | guest/src/main.rs:936-963 | For every extension list, the guest returns the first key offered, if no stub of a key share precedes it |
| KeyShare.GuestReturnsNothing | guest/src/main.rs:936-963 | Otherwise the guest returns nothing |
| KeyShare.NotaryReturns | notary/src/ecdh.rs:515-535 | For every extension list, the notary returns 32 bytes from the first extension that announces a key and has 34 bytes, if they end inside the list |
| KeyShare.NotaryReturnsNothing | notary/src/ecdh.rs:515-535 | Otherwise the notary returns nothing |
| KeyShare.OfferedIsRead | notary/src/ecdh.rs:521-531 | With one extension of each type, an offered X25519 key is what both sides read |
| KeyShare.ReadersAgree | notary/src/ecdh.rs:515-535 | The two readers agree exactly when no announced key overruns an extension that is not the last; otherwise the guest has no key and the notary has one |
| KeyShare.OverrunExample | notary/src/ecdh.rs:521-528 | A list of two extensions on which they differ |
| KeyShare.HelloRead | notary/src/ecdh.rs:483-514 | Either reader of the hello finds the extension list of every printed ServerHello with null compression, whatever messages follow in the record; the guest finds it under any compression byte |
| KeyShare.GuestKeyLoop | guest/src/main.rs:936-963 | The guest's loop returns what its reader of the list is proved to return |
| KeyShare.NotaryHelloLoop | notary/src/ecdh.rs:483-536 | The notary's checks and loop in place on the body, for all bytes |
| KeyShare.NotaryShareLoop | notary/src/ecdh.rs:454-481 | The notary's loop over the records, for all bytes |
| KeyShare.SidesTakeTheSameKey | guest/src/main.rs:896-932 | From one inbound stream, notary and guest take the same server key exactly when the key share does not overrun; an offered key is the one both take |
| Transcript.GroupingDoesNotMatter | notary/src/transcript.rs:160-199 | The hash through the server's Finished depends only on the hellos and the messages, not on how they are grouped into records or what stands between or after them |
| Transcript.GuestAndNotaryAgree | guest/src/main.rs:172-262 | Each from its own capture and grouping, with an injective hash: guest and notary get the same hash exactly when both refuse a flight of fewer than four messages, or it has four and the guest accepts it |
| Transcript.GuestHashesFlight | guest/src/main.rs:172-262 | For every flight in any grouping: the guest's three hashes are those through the second, third and fourth message, whatever these are; it refuses a shorter flight, one without Certificate or CertificateVerify, and one whose Certificate does not parse |
| Transcript.CertificateRequestExample | guest/src/main.rs:256-262 | A flight of five messages on which the two hashes differ |
| Transcript.ServerFinishedHash | notary/src/transcript.rs:173-198 | The notary's loop over inbound records |
| Transcript.AppendHsMessages | notary/src/transcript.rs:144-157 | Appends the re-encoded messages and reports Finished |
| Transcript.GuestHandshake | guest/src/main.rs:172-262 | The guest's loop over inbound records and its three transcript hashes |
| Transcript.GuestReadRecord | guest/src/main.rs:181-217 | One encrypted record of the guest's loop |
| Bridge.HeaderRoundTrip | notary/src/tls.rs:182-214 | Reading returns the written header and takes exactly its bytes, precisely when the associated data fits its length field |
| Bridge.SessionLogged | notary/src/tls.rs:347-466 | Over any run of successful operations and a finish the worker reads exactly what the client wrote and its log is the operations in order, 1 for an encryption and 2 for a decryption, with the hash of ciphertext and tag |
| Bridge.FirstBytes | notary/src/tls.rs:162-173 | On the wire an encryption starts with byte 1, a decryption with 2 and the finish with 3 |
| Bridge.RunWorker | notary/src/tls.rs:347-453 | The worker loop, with closed peer, bad lengths, unknown operation and invalid text |
| Bridge.RunFinish | notary/src/tls.rs:390-411 | The two names after a finish header |
| Bridge.ReadHeaderFrom | notary/src/tls.rs:194-214 | The header reader |
| Bridge.ReadCommit | notary/src/tls.rs:457-466 | The hash of ciphertext and tag |
| Bridge.WriteHeader | notary/src/tls.rs:182-192 | The header writer |
| Bridge.WriteSession | notary/src/tls.rs:618-700 | What the client writes in a session |
| Bundle.CanonicalInjective | common/src/lib.rs:63-106 | Two bundles whose lengths fit have the same signed bytes exactly when all fields agree, the binding from version 1 on |
| Bundle.SignThenVerify | common/src/lib.rs:171-262 | For an ideal signature a freshly signed bundle verifies exactly when its version is at least 1 |
| Bundle.VerifiesOnlyItself | common/src/lib.rs:225-262 | Under its key a signature verifies a bundle from version 1 on exactly if it was signed; a bundle of version 0 exactly if every byte of the public key is the signed version and the fields read the same one byte later |
| Bundle.CanonicalSigningBytes | common/src/lib.rs:63-106 | The code that builds the signed bytes |
| Bundle.LegacySigningBytes | common/src/lib.rs:110-141 | The code that builds the bytes without version and binding |
| Bundle.AppendCommits | common/src/lib.rs:85-91 | The loop over the records |

## Left out

- Gcm.SplitEncryptIsGcm: a statement on shares that pairs the n-th joint call and the n-th transferred block of the two sides; on one connection the pairing is proved for the reordered client (`GcmOrder.ReorderedEncrypts`) and refuted for the client as written.
- Gcm.SplitDecryptAsWritten: the same pairing; see `GcmOrder.ReorderedDecrypts`.
- PreProcessing.PreprocessCircuit: how the shares and triples themselves are drawn is not part of this model; they are parameters, and known triples are ideal.
- Compression.Write: the gate list is modelled, not the printed header and lines.
- Bridge.SessionLogged: operations are successful ones and a joint operation leaves nothing on the stream; after a failed decryption the client sends no commit bytes.
- Bridge.RunWorker: the joint operation, the missing signing key and the reply that follows the loop are not part of the worker modelled here.
- Bridge.WriteSession: the joint call between a header and its commit bytes, and the reading of the bundle, are not part of it.
- Transcript.GroupingDoesNotMatter: the two hellos and the decryption of records are parameters; finding the hellos in a capture and deriving the key are not part of this model.
- Transcript.GuestAndNotaryAgree: record decryption is a function of sequence number and record on each side; padded records, which the two sides strip differently, are not covered, and the guest's records of the flight are handshake records.
- Transcript.ServerFinishedHash: takes parsed records, hellos and record decryption as given.
- Transcript.GuestHandshake: likewise; what the guest does with the certificates and the Finished body beyond the hashes is left out.
- GcmOrder.ReorderedDecrypts: the reordered client is not the code, and what it returns is still the key stream.
- Hkdf.TrafficSharesCorrect: the public hash and HMAC of the first derived secret use the same compression function as the joint calls.
- Oblivious transfer, generation of shares and triples, AES, curve arithmetic and signatures are libraries; they are ideal or arbitrary here.
- Privacy and security against a deviating party: not functional properties of this code.
- Which AND triples of the budget are thrown away: only that enough are asked for.
- The finite fields' vector instructions and the widths of sizes and counters: block and gate counters are unbounded here.
- The semi-honest block functions, the commit-before-reveal helper and the legacy traffic-key modes.
- KeyShare.SidesTakeTheSameKey: the hello is in the only cleartext handshake record, with null compression and one extension of each type, as section 4 of RFC 8446 asks; the lists of `KeyShare.GuestReturns` and `KeyShare.NotaryReturns` are arbitrary.
- The certificate list and ClientHello parsers: they would repeat the shape of the record and key share parsers.
- Chain walking, host names, JSON and chunked bodies: single-branch facts or library calls.
- The transcript through the client's Finished: the same loop once more.
- Sockets, threads, the job queue, rustls, the command line, the prover and bincode.
