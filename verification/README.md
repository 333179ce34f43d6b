# Lockwire: a verified model

Lockwire shares a terminal. A sharer encrypts its output and sends it to a relay, which fans it out to
viewers; each viewer obtains the stream key through a SPAKE2 handshake on a spoken code. This project models
that protocol at byte level in Dafny and proves what holds over all its runs, together with the relay's
concurrency, its rate limiter, the web client's SPAKE2 and the share-code parser.

Objects that the program updates in place are classes whose methods refine functions on values; the theorems
about whole runs are proved of those functions.

| part | functions on values | objects | theorems over runs |
|---|---|---|---|
| byte strings, nonces, ideal AEAD, message layouts | ByteStrings, Nonces, Aead, Wire | Nonces, Wire | Nonces |
| session keys | SessionState.dfy | Session.dfy | SessionState.dfy |
| sharer | SharerState.dfy | Sharer.dfy | SharerRouting.dfy |
| relay session | RelayState.dfy | Relay.dfy | RelayDelivery.dfy |
| relay threads | RelayThreads.dfy | | RelayThreads.dfy, RelayPanics.dfy, RelayListing.dfy |
| Go viewer | ViewerState.dfy | Viewer.dfy | ViewerHistory.dfy |
| any relay, one viewer | | | Adversary.dfy, Tampering.dfy |
| the whole protocol | ViewerFold.dfy | | Honest.dfy, TermSize.dfy, HandshakeRun.dfy, FramesOnly.dfy, Revoked.dfy |
| the sharer's goroutines, one viewer | | | Interleaving.dfy |
| rate limiter | RateLimit.dfy | RateLimiter.dfy | RateLimit.dfy |
| SPAKE2 | Spake2.dfy | Spake2.dfy | Spake2.dfy |
| share codes | Code.dfy | | Code.dfy |

## Hypotheses

- Cryptography is ideal. A ciphertext opens exactly when it was sealed under that key and nonce (Aead.Open); epoch
  keys are injective in stream key and epoch and never equal an auth key. Encryption itself is an arbitrary
  function that lengthens its input by the tag.
- Freshness is assumed only where it is needed: of stream keys in Interleaving.dfy, of stream keys and auth keys in
  Adversary.RevokedReadsNothingNew (Adversary.Fresh), of identifiers in Honest.dfy (Honest.Legal) and
  SharerRouting.MismatchTheorem (SharerRouting.Fresh). Of the relay's identifiers RelayThreads.dfy assumes nothing;
  what must not be drawn again is stated exactly, for panics in RelayPanics.NothingPanicsIff and for who is listed in
  RelayListing.AdmissionIff. What a repeated identifier does to the session's buffers
  SessionHeap.Session.RegisterViewer and Close say.
- Fewer than 2^64 nonces are drawn in a session where a theorem compares nonces.
- Honest.dfy takes as single steps: a revocation with all its rekeys; registering a viewer, delivering its key
  and mapping it; encrypting a frame and sending it. In the code another goroutine can get in between
  (internal/sharer/sharer.go:107-127, 285-300, 147-153 and 354-359), so the theorem speaks of runs where none does;
  what happens to a viewer when some do is stated exactly in Interleaving.dfy.
- Interleaving.dfy follows one viewer that stays attached and whose queue never overflows on a key message; frames
  may be dropped. One frame at a time is between its encryption and its sending.
- Honest.dfy also assumes: the sharer's clock does not go back, sends to the relay succeed, keys can be drawn, and
  Verify succeeds only for a viewer that derived the same key. Viewers read late, stop, lose the connection or are
  evicted at any time.
- RelayThreads.dfy, and what builds on it, takes each critical section of the relay as one step; which queues are full is arbitrary.
- RateLimit.dfy takes each call of Allow as one step and assumes a clock that does not go back.
- In Spake2.dfy the group is cyclic of an arbitrary prime order up to 2^256, hash and MAC are arbitrary; soundness
  is stated up to explicit collisions of the MAC, of half the hash or of the key derivation.

Where documentation and code differ, the model follows the code: the relay tells the sharer that a viewer has left
(the repository's relay requirements, under Session Teardown, say it does not); a viewer is evicted when a unicast
finds 256 messages waiting (the same requirements say 512 KB); and the rate limiter is a fixed-window counter
(RateLimit.BoundIsReached and RateLimit.BeyondLimitIff).

Two things a relay can do within the safety theorem are stated with their exact conditions in Tampering.dfy: it can
set a viewer back to an older stream key of its own by replaying a delivery, and it can have a stream frame applied
as a terminal size, or the reverse, by changing the tag byte, which the code does not authenticate. Three things can
go wrong with an honest relay: a handshake whose messages begin with 2, 5, 6 or 7 (HandshakeRun.AdmittedIff), and a
rekey that a viewer misses or gets too late when goroutines of the sharer interleave (Interleaving.StaleIff and
Interleaving.ThrownOutIff).

## Model

| member | source | states |
|---|---|---|
| `Honest.KeyAgreementAndCompleteness` | internal/session/session.go:141-178 | In every reachable state of sharer, relay and viewers: session viewers and mapped relay IDs correspond one to one, and every registered viewer that is still attached is running, has rejected no frame, has written exactly the stream plaintexts of the frames it has read, shows the size of the last size frame among them, and - however and whenever it reads what is on its way to it - will hold the session's current key and have written and show exactly that too |
| `Honest.NextKeeps` | internal/relay/relay.go:291-340 | Every step of the protocol (join, handshake message, stream frame, resize, revocation with all its rekeys, relay write, viewer read, eviction, disconnect, connection loss) keeps the invariant: folding what is pending for a viewer over the key it holds gives the session's current key |
| `Honest.RunKeeps` | internal/sharer/sharer.go:161-202 | The invariant holds after any sequence of steps |
| `Honest.RevocationKeeps` | internal/sharer/sharer.go:106-131 | A revocation with its rekey unicasts keeps it: each remaining viewer has the new key queued behind the frames of the old one, whatever the two map iteration orders are, including viewers evicted by a full queue meanwhile |
| `Honest.FrameKeeps` | internal/sharer/sharer.go:349-392 | Encrypting and broadcasting a frame keeps it, including for viewers whose queue is full and miss the frame |
| `Honest.AdmitKeeps` | internal/sharer/sharer.go:274-310 | Registering, delivering the key, mapping the viewer and announcing the terminal size keeps it |
| `Honest.DisconnectKeeps` | internal/sharer/sharer.go:204-222 | Handling a disconnect notice keeps it |
| `Honest.LeaveKeeps` | internal/relay/relay.go:325-340 | A viewer leaving the relay, with its notice to the sharer, keeps it |
| `Honest.LeaverReported` | internal/relay/relay.go:325-340 | A viewer that leaves is unlisted and reported to the sharer |
| `Honest.LeaverForgotten` | internal/sharer/sharer.go:204-222 | On that report the sharer forgets the session viewer mapped to the relay ID, and no other |
| `Honest.ReadKeeps` | internal/viewer/viewer.go:288-329 | A viewer reading one message keeps it: nothing an honest relay queued is rejected |
| `Honest.WatchingInStep` | internal/viewer/viewer.go:331-355 | What the invariant says of one attached viewer: its queue drains to the current stream key, its own auth key and ID, no failure counted |
| `TermSize.ResizeShown` | internal/sharer/sharer.go:133-159 | In every reachable state: after SetTermSize(cols, rows) each watching viewer that had room in its queue will show exactly cols and rows once it has read what is on its way to it, whatever the clock says |
| `TermSize.NewcomerShows` | internal/sharer/sharer.go:303-308 | In every reachable state: a viewer that is admitted with room for both messages will show the size of the last SetTermSize of the run if both its numbers are positive, and else none |
| `HandshakeRun.HandshakeCompletes` | internal/viewer/viewer.go:121-188 | From any reachable state with nothing on its way to the sharer and room at the relay, a new viewer has a run that ends with it registered, mapped and attached, provided msg_a and confirm_a are not empty and do not begin with 2, 5, 6 or 7; it then holds the current key once its queue is drained |
| `HandshakeRun.AdmittedIff` | internal/viewer/viewer.go:213-247 | Whether a viewer that waits for msg_a or confirm_a can still be admitted, in any continuation at all, is decided by the message on its way to it: it can if and only if that is not empty and does not begin with 2, 5, 6 or 7 |
| `HandshakeRun.AnsweringReached` | internal/sharer/sharer.go:243-263 | From the start there is a run to each such state, whatever the message is |
| `HandshakeRun.StuckRun` | internal/viewer/viewer.go:226-245 | After a message that is not taken, no run ever maps a session viewer to this one |
| `HandshakeRun.DiscardedTurn` | internal/viewer/viewer.go:226-245 | A handshake message that the receiver discards leaves both sides waiting with nothing on its way between them |
| `HandshakeRun.SharerTurn` | internal/sharer/sharer.go:243-263 | A handshake message of a waiting viewer is answered: the sharer's stage advances by one and exactly the answer is queued for the viewer |
| `Revoked.RevokedViewerEnds` | internal/viewer/viewer.go:301-313 | A viewer watching in a reachable state is revoked and stays attached during any run after that in which no new key equals the old one: what it has read falls into messages of before and frames sealed after the revocation under other keys; it has written exactly what was sealed for the former, shows their last size, and has stopped, for revoked access, exactly when ten of the latter are stream frames; the same holds of all that is still on its way, whenever it reads that |
| `FramesOnly.SharerStays` | internal/sharer/sharer.go:106-131 | Once a viewer is mapped to nobody and its handshake over, a step of the sharer sends it at most one frame, sealed in that step under the current key |
| `FramesOnly.UnservedStep` | internal/sharer/sharer.go:224-310 | No step of anybody makes the sharer serve such a viewer again |
| `Revoked.DoomedDrain` | internal/viewer/viewer.go:288-329 | A queue of frames that do not open shows nothing and ends the viewer exactly with the failure that brings the count to ten |
| `Interleaving.FateDecides` | internal/sharer/sharer.go:106-131 | At lock granularity, whatever the interleaving of admission, revocations and frames, and whenever the viewer reads: the key it ends up with, its failures, its output and whether it stops are those given by the order in which key messages and frames were sent |
| `Interleaving.StaleIff` | internal/sharer/sharer.go:116-127 | Once the viewer is admitted and no revocation is under way it ends up with the current key if and only if the last rekey was not skipped, its lookup having found the viewer unmapped or a send having failed, and was not overtaken by an older one of a concurrent call |
| `Interleaving.SerialStaleIff` | internal/sharer/sharer.go:116-127 | With one call of Revoke at a time: if and only if the last rekey was not skipped; and none is ever skipped if and only if no lookup comes between registering and mapping the viewer and no send of a call of Revoke fails |
| `Interleaving.StaleRun` | internal/sharer/sharer.go:285-300 | A concrete run in which a rotation between registering and mapping leaves a viewer with the old key although nothing fails |
| `Interleaving.ThrownOutIff` | internal/sharer/sharer.go:106-131 | One revocation of another viewer, in any interleaving with frames: a viewer in step reports revoked access if and only if ten stream frames or more, encrypted after the rotation, were sent before its rekey or in place of it; otherwise it goes on, and at most one more frame does not open |
| `Interleaving.ForeignFrames` | internal/viewer/viewer.go:301-313 | Frames under keys that a viewer does not hold throw it out exactly when they bring its failures to ten |
| `Interleaving.NextBooks` | internal/sharer/sharer.go:106-131 | Every step keeps: the key of each generation since the registration has been sent once, is about to be, or was skipped |
| `ViewerFold.StepFollowsFold` | internal/viewer/viewer.go:288-329 | A pending message that the clock-free fold accepts is accepted by the receive loop whatever the clock says, and leaves the state the fold predicts |
| `ViewerFold.OutputFollowsFold` | internal/viewer/viewer.go:357-397 | What such a message adds to the output is exactly the plaintext sealed under its nonce |
| `ViewerFold.DrainFollowsFold` | internal/viewer/viewer.go:288-329 | The same for a whole queue: nothing is rejected or lost, and the output is the concatenation of the plaintexts |
| `ViewerFold.FoldStable` | internal/session/session.go:200-222 | Later seals by the session never change what a queued message will do to a viewer |
| `Adversary.SafeAgainstAnyRelay` | internal/viewer/viewer.go:288-447 | For every sequence of bytes a relay can deliver, interleaved with any session activity, repeated keys and identifiers included: what the viewer writes or applies is a subsequence of what was passed to EncryptFrame in that run, in strictly increasing nonce order, each frame at most once |
| `Adversary.RevokedReadsNothingNew` | internal/session/session.go:141-178 | With fresh keys: once RevokeViewer has succeeded for the entry that holds a viewer's key, nothing sealed afterwards ever reaches that viewer's output or terminal size, whatever any relay delivers before or after |
| `Adversary.NextKeepsInv` | internal/session/session.go:83-188 | With fresh keys every step keeps: at most one entry of the session holds the viewer's key, and after its revocation no new stream key is sealed for it |
| `Adversary.NextKeepsSafe` | internal/viewer/viewer.go:331-447 | Every session operation and every delivery keeps: the viewer only holds stream keys that were sealed for it, and each accepted plaintext was sealed under such a key |
| `Adversary.FramesAreCalls` | internal/session/session.go:200-222 | The frame entries of the seal log are exactly the successful EncryptFrame calls of the run, in order, each with the nonce it drew |
| `Adversary.OpensGenuine` | internal/viewer/viewer.go:383-392 | A frame that opens under a key of the viewer was sealed under a key that was granted to it |
| `Adversary.SortedSubset` | internal/viewer/viewer.go:371-382 | Increasing nonces turn membership into a subsequence: nothing is replayed, nothing reordered |
| `Tampering.KeyChangesIff` | internal/viewer/viewer.go:331-355 | Whatever identifier a relay has given it: a message changes the stream key a viewer holds if and only if it is a delivery or rekey that was ever sealed for that viewer, new or old, and carries another key |
| `Tampering.SetBackIff` | internal/viewer/viewer.go:331-355 | The keys a relay can make a viewer hold by one message are exactly those ever sealed for it |
| `Tampering.KeysOfAnyRelay` | internal/viewer/viewer.go:256-286 | Both over all runs against any relay: a running viewer always holds an identifier that begins like no tagged message |
| `Tampering.SetBackRun` | internal/viewer/viewer.go:331-355 | A concrete run in which a viewer that has taken the current key is set back to the one of before the rotation by its own first key delivery, replayed |
| `Tampering.KindIff` | internal/viewer/viewer.go:301-317 | What a viewer accepts is taken for the kind of frame it was encrypted as if and only if the message does not carry that frame under a changed tag |
| `Tampering.KindsRespected` | internal/viewer/viewer.go:288-447 | As long as the relay changes no tag, whatever else it does: what is written was encrypted as a stream frame, what is applied as a terminal size |
| `Tampering.BuiltUntampered` | internal/sharer/sharer.go:349-392 | What the sharer builds for a tag is untampered if and only if the kind recorded for its nonce is that of the tag |
| `Tampering.StreamAsSizeIff` | internal/viewer/viewer.go:399-447 | A stream frame that would be written is, re-tagged, applied as a size if its plaintext has four bytes or more, and else ignored |
| `Tampering.SizeAsStream` | internal/viewer/viewer.go:357-397 | A size frame that would be applied is, re-tagged, written to the output |
| `SessionState.NoNonceReuse` | internal/session/session.go:102-103 | Below 2^64 draws no two Seal calls in a session's life share a nonce - frames, key deliveries and rekeys alike, across every key rotation - and nonces increase in the order of the calls |
| `SessionState.StepKeepsInv` | internal/session/session.go:83-244 | Every session operation keeps: keys have the right length, the log's nonces are increasing and bounded by the draws |
| `SessionState.RevokeOutcome` | internal/session/session.go:141-178 | A revocation of a listed viewer in closed form: the viewer is gone and recorded as revoked, the key replaced, one draw and one seal of the new key per remaining viewer |
| `SessionState.RevokeNeverFails` | internal/session/session.go:159-172 | With keys of the right length the rekey loop cannot fail, and the returned map has exactly the remaining viewers |
| `SessionState.RevokeUnknown` | internal/session/session.go:141-152 | On a closed session or an unlisted viewer nothing changes and the error is the one for that case |
| `SessionState.RekeyAllSucceeds` | internal/session/session.go:161-172 | The seals of the rekey loop, in the iteration order, and nothing else changed |
| `SessionState.RekeyAllHands` | internal/session/session.go:161-172 | Each viewer's entry of the rekey map is the payload sealed under that viewer's own key |
| `SessionState.FrameMinute` | internal/session/session.go:194-222 | The epoch of a frame is the number of the minute in which it was sealed: 60 * epoch <= unix < 60 * epoch + 60, with 2^64 added to a reading before 1970 |
| `SessionState.FrameEpochs` | internal/session/session.go:200-222 | Two frames carry one epoch exactly if they were sealed in the same minute, and never if 60 seconds lie between them |
| `SessionState.Refusals` | internal/session/session.go:83-104 | A closed session refuses to register and to encrypt and is unchanged; an empty key costs no nonce, a key of the wrong length exactly one |
| `SessionState.RegisterShape` | internal/session/session.go:83-124 | Registration succeeds exactly for a key of the right length; a failure changes at most the nonce counter |
| `SessionHeap.Session.constructor` | internal/session/session.go:55-75 | A new session owns one fresh key buffer and has drawn no nonce |
| `SessionHeap.Session.RegisterViewer` | internal/session/session.go:83-124 | Refines the functional registration, with every error exit: closed session, no identifier, empty key, wrong key length; the caller's buffer is not shared; a failure leaves its copy zeroed; the only buffer that can lose its last reference unzeroed is that of an existing viewer with the same ID, and it keeps its key |
| `SessionHeap.Session.RevokeViewer` | internal/session/session.go:141-178 | Refines the functional revocation for some iteration order; the revoked viewer's key and the old stream key are all zeros afterwards; no buffer leaks; the rekey loop's error exit is never taken; when no new key can be drawn, the viewer is gone and its key zeroed but the stream key stays |
| `SessionHeap.Session.SealForAll` | internal/session/session.go:161-172 | The rekey loop visits every listed viewer once and seals the new key for it |
| `SessionHeap.Session.RemoveViewer` | internal/session/session.go:180-188 | Forgets the viewer and zeroes its key; an unknown ID changes nothing |
| `SessionHeap.Session.EncryptFrame` | internal/session/session.go:200-222 | Refines the functional encryption under the epoch key of the current stream key, for the minute of the clock reading |
| `SessionHeap.Session.Close` | internal/session/session.go:230-244 | After Close every buffer the session ever allocated for a key is all zeros, except those leaked by a repeated ID, which go on holding their keys: all of them are zeros if and only if every leaked key was; closing twice changes nothing |
| `SessionHeap.Session.KeyMaterialAccountedFor` | internal/session/session.go:83-188 | With identifiers never given out twice, the only buffers the session ever allocated that are not all zeros are the current stream key and the auth keys of listed viewers, all of them distinct |
| `SessionHeap.ZeroBytes` | internal/crypto/memsec.go:10-14 | The loop leaves every byte zero |
| `SessionHeap.SecureCopy` | internal/session/session.go:89-93 | A fresh buffer with the same contents; refused exactly for an empty key |
| `Aead.OpenSound` | internal/crypto/aead.go:25-41 | What opens was sealed: same key, same nonce, same plaintext, same ciphertext |
| `Aead.OpenSealed` | internal/crypto/aead.go:11-41 | What was sealed under an unshared nonce opens to itself |
| `Aead.OpenStable` | internal/crypto/aead.go:25-41 | Later seals do not change what an earlier ciphertext opens to |
| `Nonces.NoncesUniqueIff` | internal/crypto/nonce.go:18-23 | The first n nonces are pairwise distinct if and only if n is at most 2^64 |
| `Nonces.NoncesCollideIff` | internal/crypto/nonce.go:18-23 | Two draws share a nonce exactly when they are congruent modulo 2^64 |
| `Nonces.NoncesOrdered` | internal/crypto/nonce.go:18-23 | Below 2^64 the encoding preserves the order of the draws |
| `Nonces.NonceRoundTrip` | internal/viewer/viewer.go:374-377 | The viewer's reading of an encoded draw gives the draw back |
| `Nonces.NonceCounter.Next` | internal/crypto/nonce.go:18-23 | Increments the counter with wrap-around and returns the nonce of that draw |
| `Nonces.ReadNonce` | internal/viewer/viewer.go:374-377 | The shift-and-or loop over bytes 4 to 11 computes the big-endian value, without overflow |
| `ByteStrings.ToFromBE` | internal/crypto/nonce.go:20-22 | Big-endian encoding and decoding are inverse on byte strings |
| `ByteStrings.PutUint64` | internal/crypto/nonce.go:21-21 | Writes the eight bytes most significant first and touches no other byte |
| `ByteStrings.Copy` | internal/sharer/sharer.go:340-347 | Copies as much of the source as fits the slice and touches no other byte |
| `Wire.FrameRoundTrip` | internal/sharer/sharer.go:376-392 | A frame built by the sharer parses at the viewer to the same epoch, nonce and ciphertext, which stand at bytes 1-8, 9-20 and from 21 on |
| `Wire.DeliveryRoundTrip` | internal/sharer/sharer.go:340-347 | A key delivery or rekey for an ID that begins like no tagged message reaches the viewer's untagged default branch and parses back |
| `Wire.AddressedRoundTrip` | internal/relay/relay.go:305-306 | The relay's split of an addressed message gives back target and payload |
| `Wire.NoticeRoundTrip` | internal/relay/relay.go:333-337 | A disconnect notice is the bytes 6 and 7 and the viewer's identifier |
| `Wire.BuildKeyDelivery` | internal/sharer/sharer.go:340-347 | The buffer filling equals the byte layout |
| `Wire.BuildFrame` | internal/sharer/sharer.go:376-392 | The buffer filling equals the byte layout, for stream and size frames |
| `Wire.BuildAddressed` | internal/sharer/sharer.go:332-338 | The buffer filling equals the byte layout; also for relayed handshake messages |
| `Wire.BuildDisconnected` | internal/relay/relay.go:333-337 | The buffer filling equals the byte layout |
| `ViewerState.TakesIffDefault` | internal/viewer/viewer.go:213-247 | A handshake message is taken exactly when it is non-empty and its first byte is not 2, 5, 6 or 7; a confirm_a beginning with one of these is discarded |
| `ViewerHistory.EpochClockRefines` | internal/viewer/viewer.go:466-488 | currentEpoch is the maximum epoch checked so far, and the transition time is when that maximum first appeared |
| `ViewerHistory.ValidateEpochIff` | internal/viewer/viewer.go:466-488 | A check passes exactly for the first epoch, one not older than the newest, or one exactly one behind within five seconds; there is no underflow at epoch 0 |
| `ViewerHistory.FailuresRefine` | internal/viewer/viewer.go:299-309 | The counter is the number of stream failures other than expired epochs since the last decrypted stream frame or rekey, and ErrAccessRevoked is returned exactly when that number reaches ten |
| `ViewerHistory.VerdictIff` | internal/viewer/viewer.go:301-313 | A message counts as a failure exactly if it is a stream frame that is too short, or in time but replayed or not authentic; exactly the authentic, newer ones in time are written; late ones are ignored |
| `ViewerHistory.AppliedIff` | internal/viewer/viewer.go:399-447 | Exactly the authentic, newer size frames in time with four bytes of plaintext or more are applied |
| `ViewerHistory.RekeyedIff` | internal/viewer/viewer.go:331-355 | A message that no tag captures rekeys the viewer exactly if it bears its identifier and opens under its auth key; else it changes nothing |
| `ViewerHistory.EndsRefine` | internal/viewer/viewer.go:314-322 | The loop reports the end of the session exactly on a message that begins with 6 and 4, and ends for no other reason than that or revoked access |
| `ViewerHistory.HandshakeEndsIff` | internal/viewer/viewer.go:226-245 | A handshake ends with the session exactly on a message that begins with 6 and 4, as not found exactly on 6 and 3, and takes exactly those that do not begin with 2, 5, 6 or 7 |
| `ViewerHistory.FloorRefines` | internal/viewer/viewer.go:371-390 | The nonce that a frame must exceed is the highest so far of the stream frames in time, opened or not, and of the size frames in time that opened |
| `ViewerHistory.FreshViewer` | internal/viewer/viewer.go:256-286 | A viewer that has just taken its key holds what the delivery carried, and has seen and shown nothing |
| `ViewerHistory.KeyTakenIff` | internal/viewer/viewer.go:243-286 | The first message no tag captures gives the viewer its key exactly if it has 19 bytes or more and its ciphertext opens under the authentication key; otherwise it ends the run |
| `ViewerHistory.StepFailures` | internal/viewer/viewer.go:288-329 | One message: a written frame or a rekey resets the counter, a failure that is not an expired epoch adds one, anything else leaves it |
| `ViewerHistory.SizeRefines` | internal/viewer/viewer.go:399-447 | The size the viewer reports is that of the last size frame it applied |
| `ViewerHistory.SizeRoundTrip` | internal/sharer/sharer.go:142-145 | A size plaintext decodes to the columns and rows it was built from |
| `ViewerHeap.Viewer.constructor` | internal/viewer/viewer.go:256-286 | A delivered key puts the viewer into its initial receiving state with buffers of its own |
| `ViewerHeap.Viewer.ValidateEpoch` | internal/viewer/viewer.go:466-488 | The field updates refine the functional epoch clock |
| `ViewerHeap.Viewer.DecryptAndWrite` | internal/viewer/viewer.go:357-397 | Refines the functional step: epoch, then nonce, then AEAD; the nonce is spent even if the frame does not open; the output is that of the accepted history |
| `ViewerHeap.Viewer.DecryptAndApplySize` | internal/viewer/viewer.go:399-447 | Refines the functional step: the nonce is spent only by a frame that opens |
| `ViewerHeap.Viewer.ProcessRekey` | internal/viewer/viewer.go:331-355 | Refines the functional step; the old stream key buffer is zeroed exactly when a rekey is taken |
| `ViewerHeap.Viewer.Turn` | internal/viewer/viewer.go:288-329 | One turn of the receive loop refines the functional step, with its outcome |
| `ViewerHeap.Viewer.StreamLoop` | internal/viewer/viewer.go:288-329 | The loop stops at the first message that ends it, in the state the functional loop reaches there |
| `ViewerHeap.Viewer.ZeroKeys` | internal/viewer/viewer.go:490-497 | Both key buffers are all zeros |
| `ViewerHeap.RecvHandshakeMsg` | internal/viewer/viewer.go:213-247 | Returns the first message that is taken or ends the handshake, or the error of the receive if there is none; everything before it was discarded |
| `SharerRouting.RoutingTheorem` | internal/sharer/sharer.go:204-312 | Over every run, whatever bytes come from the relay and whatever fails: a disconnect search has at most one hit; no relay ID is sent a key twice; each key follows successful calls of Start, Finish and Verify in that order on one SPAKE2 instance; unmapped session viewers are among those whose key delivery was lost and stale map entries among those revoked without a new key; when nothing fails the two sides coincide and each call was made once |
| `SharerRouting.DispatchIff` | internal/sharer/sharer.go:172-200 | What a message of the relay is taken for: 1 and a relay ID a handshake message with whatever payload follows, 6, 7 and a relay ID a disconnect notice; anything else is ignored |
| `SharerRouting.RekeysSent` | internal/sharer/sharer.go:117-127 | A revocation sends each mapped viewer of the rekey map its own rekey once, in the order of the loop, and nothing else |
| `SharerRouting.ClientTypeKept` | internal/sharer/sharer.go:394-399 | The first message of a handshake says what kind of client it is, for good, and the viewer is listed as that |
| `SharerRouting.FailedSendRetries` | internal/sharer/sharer.go:243-263 | An answer that could not be sent is not lost: the handshake waits where it was, and the next message gets it |
| `SharerRouting.MismatchTheorem` | internal/sharer/sharer.go:285-300 | With fresh identifiers: the unmapped session viewers are exactly those whose key delivery could not be sent, and the mapped ones outside the session exactly those revoked without a new key |
| `SharerRouting.NextKeeps` | internal/sharer/sharer.go:161-202 | Every step of the sharer keeps the routing invariants |
| `SharerRouting.Spake2Keeps` | internal/sharer/sharer.go:224-312 | A handshake message in any state, with any answers of the SPAKE2 library, keeps them |
| `SharerRouting.DisconnectKeeps` | internal/sharer/sharer.go:204-222 | A disconnect keeps them and leaves no viewer mapped to that relay ID |
| `SharerRouting.RevokeKeeps` | internal/sharer/sharer.go:106-131 | A revocation keeps them |
| `SharerHeap.Sharer.HandleSpake2` | internal/sharer/sharer.go:224-312 | The four-state handler, on contexts updated in place, refines the functional handler and sends exactly what it says, with a separate outcome for creating the instance, for the answer and for the size announcement |
| `SharerHeap.Sharer.DeliverKey` | internal/sharer/sharer.go:278-300 | Registration, key delivery, completion and map entry in the source's order; a failed send leaves the viewer registered and unmapped |
| `SharerHeap.Sharer.HandleViewerDisconnect` | internal/sharer/sharer.go:204-222 | The early-exit search finds a mapped viewer if there is one, unmaps it and removes it from the session; otherwise nothing changes |
| `SharerHeap.Sharer.FindMapped` | internal/sharer/sharer.go:206-212 | The early-exit search of the map returns a viewer mapped to the relay ID if there is one |
| `SharerHeap.Sharer.Revoke` | internal/sharer/sharer.go:106-131 | Rotates the key, unmaps the viewer and sends each mapped viewer its own rekey; if a send fails, the rekeys sent are the first ones of the loop and the rotation stands; if no new key can be drawn, the viewer leaves the session but stays mapped and nothing is sent |
| `SharerHeap.Sharer.SendRekeys` | internal/sharer/sharer.go:117-127 | The send loop: every rekey of a mapped viewer once, up to the first failure |
| `SharerHeap.Sharer.SendFrame` | internal/sharer/sharer.go:349-383 | One encrypted frame per read, in the layout of its tag |
| `SharerHeap.Sharer.SetTermSize` | internal/sharer/sharer.go:133-159 | Remembers the size and broadcasts it |
| `SharerHeap.Sharer.SendUnicast` | internal/sharer/sharer.go:332-338 | Sends the payload in its envelope, and nothing if the send fails |
| `RelayDelivery.DeliveryTheorem` | internal/relay/relay.go:216-317 | What is ever queued for a viewer is an in-order selection of the sharer's broadcasts and that viewer's stripped unicasts since it joined; an offer is missing only if 256 messages were waiting, and then it is a broadcast or the unicast that evicted the viewer; the map never exceeds its limit |
| `RelayDelivery.AdmittedUpToLimit` | internal/relay/relay.go:216-240 | In every reachable state a viewer is turned away exactly if the session is closed or as many viewers as allowed are listed; otherwise it is listed with an empty queue and nobody else changes |
| `RelayDelivery.QueuedPositions` | internal/relay/relay.go:291-317 | What was queued stands at strictly increasing positions among the offers |
| `RelayDelivery.KeptIsQueued` | internal/relay/relay.go:291-317 | Every offer that was kept was queued |
| `RelayDelivery.NextKeeps` | internal/relay/relay.go:193-317 | Every step of the session keeps the delivery invariant |
| `RelayHeap.Session.Join` | internal/relay/relay.go:216-240 | A join is refused exactly when the session is closed or full; otherwise the viewer is listed with an open, empty channel, in place of one listed under the same identifier |
| `RelayHeap.Session.Broadcast` | internal/relay/relay.go:291-299 | The fan-out loop offers the message to every listed viewer once, and only to open channels |
| `RelayHeap.Session.Unicast` | internal/relay/relay.go:301-317 | A unicast is queued for its target alone; one that does not fit closes the channel and unlists the viewer |
| `RelayHeap.Session.FromSharer` | internal/relay/relay.go:286-317 | The dispatch on the first byte refines the functional one |
| `RelayHeap.Session.Leave` | internal/relay/relay.go:325-340 | The leaving viewer's identifier is unlisted and its own channel closed if the identifier was still listed, and the sharer is told unless the session is closed |
| `RelayHeap.Session.Teardown` | internal/relay/relay.go:262-276 | Every listed channel is closed once, the map emptied, the session closed |
| `RelayPanics.NothingPanicsIff` | internal/relay/relay.go:160-340 | An interleaving of critical sections is free of panics - no send on a closed channel, no second close, no insertion into the nil map, up to and including the next step of any thread - if and only if in it nobody is admitted under the identifier of a viewer whose channel is closed and whose handler still runs |
| `RelayPanics.CalmIffSafe` | internal/relay/relay.go:160-340 | The same from any state in which listed channels are open and viewers with a closed channel find nobody listed under their identifier; such admissions are the only thing that can end that |
| `RelayPanics.ReusedIdentifierPanics` | internal/relay/relay.go:308-331 | A concrete run in which an evicted viewer that has not left yet and a newcomer with the same identifier make the relay close a channel twice |
| `RelayThreads.ViewerLimit` | internal/relay/relay.go:222-240 | Whatever identifiers are drawn, and even past a panic, no session lists more viewers than the limit |
| `RelayThreads.ReachesItsSession` | internal/relay/relay.go:193-240 | Over every interleaving: a viewer that is joining or watching, and whoever is listed, is in a session of a sharer that offered the session identifier the viewer arrived with |
| `RelayThreads.LookupIff` | internal/relay/relay.go:204-213 | At the look-up a viewer is turned away if and only if no sharer in its loop or its exit offered that identifier; else it joins the session of such a sharer |
| `RelayThreads.RegisterIff` | internal/relay/relay.go:173-186 | A sharer is rejected if and only if another one in its loop or its exit offered the same identifier |
| `RelayThreads.ServedOnce` | internal/relay/relay.go:173-186 | There is never more than one such sharer for an identifier |
| `RelayThreads.TeardownIsOwn` | internal/relay/relay.go:262-276 | Whatever identifiers are drawn: a sharer that is about to delete its registration finds there the session that it registered itself, closed and without viewers |
| `RelayThreads.CoreKeeps` | internal/relay/relay.go:160-340 | Every critical section of every handler keeps what registrations, sessions and handlers know of each other, whatever identifiers are drawn |
| `RelayListing.ListedIffOpen` | internal/relay/relay.go:216-340 | As long as no admitted viewer draws an identifier in use: a viewer is in the map exactly as long as its channel is open; no channel is closed twice |
| `RelayListing.ClosedOnceAtTheEnd` | internal/relay/relay.go:325-331 | Likewise, by the time a viewer's handler ends, its channel has been closed exactly once |
| `RelayListing.AdmissionIff` | internal/relay/relay.go:231-240 | An admission leaves every channel listed exactly while open and every viewer able to leave without a panic if and only if no viewer of that session whose handler still runs goes by the drawn identifier |
| `RelayListing.NextKeeps` | internal/relay/relay.go:160-340 | With such identifiers every critical section of every handler keeps the lifecycle invariant |
| `RelayListing.CloseAllShape` | internal/relay/relay.go:262-271 | Closing open, distinct channels closes exactly those, without a panic |
| `RateLimit.SlidingWindowBound` | internal/relay/ratelimit.go:140-182 | Over any run with a clock that never goes back, any half-open interval as long as an event's window contains at most 2*limit - 1 allowed requests for one address and event (none if the limit is not positive), although the code keeps a fixed-window counter |
| `RateLimit.BoundIsReached` | internal/relay/ratelimit.go:158-165 | For every limit and window there is a run that allows 2*limit - 1 requests within one window length: the bound is sharp, and the promise of the relay requirements that a request beyond the limit in the past minute is refused does not hold of the code |
| `RateLimit.BeyondLimitIff` | internal/relay/ratelimit.go:140-182 | When that promise is broken, for every run and every limit and window: a request is allowed although the window-long stretch up to it already holds the limit of allowed requests if and only if the address is not banned, the current fixed window holds fewer than the limit, and the part of the stretch before that window began makes up the difference |
| `RateLimit.BanIff` | internal/relay/ratelimit.go:165-198 | A request triggers a ban exactly when it is at least the 3*limit-th of its window, or the first refused one of its window while two violations are less than an hour old |
| `RateLimit.ThirdStrikeBans` | internal/relay/ratelimit.go:165-198 | Over any run: the last request bans its address if and only if that is not banned already and the request is at least the 3*limit-th of its window, or the first beyond the limit of its window and the third such one of the address within an hour |
| `RateLimit.BoundsByEvent` | internal/relay/ratelimit.go:51-76 | Connections, registrations and handshake failures are bounded by their own limits over their own windows, and no other event is ever allowed |
| `RateLimit.BanEnds` | internal/relay/ratelimit.go:130-148 | In every reachable state with one ban (two bans): a request that checks before 3600 (86400) seconds have passed since it is denied and changes nothing; one that checks from then on gets exactly the answer of the same record with no ban on it |
| `RateLimit.BannedIff` | internal/relay/ratelimit.go:130-138 | Who is banned in every reachable state: for good after a third ban, before that until 3600 or 86400 seconds after the last |
| `RateLimit.NoFalseDenial` | internal/relay/ratelimit.go:140-198 | An address that makes at most limit requests (limit at least 1) of each event in every window-long interval is never denied, records no violation and is never banned, whatever other addresses do |
| `RateLimit.Isolation` | internal/relay/ratelimit.go:108-117 | The state of an address depends on its own requests only |
| `RateLimit.LifecycleHolds` | internal/relay/ratelimit.go:184-218 | In every reachable state banCount is at most 3 and fixes expiry and permanence, the third ban began after the second expired, and the violation list has at most 3 entries, all from before the last ban or all from after its expiry |
| `RateLimit.BanStep` | internal/relay/ratelimit.go:140-218 | One request: a ban is the next in line, begins no earlier than the previous one's expiry and comes with a denial; a recorded violation stands only beside violations from after the last ban's expiry; a permanent ban denies and changes nothing |
| `RateLimit.PermanentForever` | internal/relay/ratelimit.go:130-138 | After a permanent ban every later request of the address is denied and changes nothing |
| `RateLimit.RecordStep` | internal/relay/ratelimit.go:184-198 | No violation from before a ban counts toward a later one |
| `RateLimiterHeap.RateLimiter.Allow` | internal/relay/ratelimit.go:140-182 | The in-place update refines the functional limiter for the address and leaves every other address as it was |
| `RateLimiterHeap.RateLimiter.IsBanned` | internal/relay/ratelimit.go:119-128 | Answers from the record of the address, or no for an unknown one, and creates nothing |
| `RateLimiterHeap.IpState.RecordViolation` | internal/relay/ratelimit.go:184-198 | The filtering loop keeps the recent violations in order, adds the new one and bans at three |
| `RateLimiterHeap.IpState.Ban` | internal/relay/ratelimit.go:200-218 | The three stages of a ban |
| `RateLimiterHeap.IpState.Decide` | internal/relay/ratelimit.go:147-182 | The order of checks of Allow on one record refines the functional one |
| `Spake2.Agreement` | web/src/spake2.ts:121-149 | Same reduced password and AAD: whenever both messages exist, each side accepts the other's and both build the same transcript, of the identities A and B, the two messages, the product of the two scalars, the password and the AAD |
| `Spake2.AcceptanceMeansAgreement` | web/src/spake2.ts:151-163 | Whatever messages were delivered to the two sides: if one accepts the other's confirmation, both have the same reduced password, messages, AAD and keys, or the MAC has collided on two different transcripts |
| `Spake2.AcceptanceMeansSamePassword` | web/src/spake2.ts:19-26 | The same for password bytes: both sides started from the same ones, or the hashes of two different ones are congruent modulo the group order, or the MAC has collided |
| `Spake2.KeySchedule` | web/src/spake2.ts:172-185 | The keys are those of section 3.4 of RFC 9382: the hash of the transcript is the session key followed by the key from which both confirmation keys are derived |
| `Spake2.SessionKeyBinds` | web/src/spake2.ts:172-185 | Two runs with one session key have one transcript, or two different transcripts agree in the first half of their hash |
| `Spake2.ConfirmKeyBinds` | web/src/spake2.ts:172-185 | Two runs with one confirmation key have one transcript, or a collision of the other half of the hash or of half the derived keys |
| `Spake2.SessionKeysBind` | web/src/spake2.ts:251-256 | The same for the session keys that two objects return: their runs have equal fields, or half the hash has collided |
| `Spake2.TranscriptLists` | web/src/spake2.ts:35-65 | A transcript parses to identities, messages, shared point, password and AAD in this order, an empty AAD left out |
| `Spake2.Reduced` | web/src/spake2.ts:19-26 | A reduced password is the residue of its hash modulo the group order, a scalar that of its random bytes |
| `Spake2.ScalarDrawn` | web/src/spake2.ts:67-83 | Every scalar of the group is drawn by some 32 bytes |
| `Spake2.MessageIff` | web/src/spake2.ts:202-208 | A message exists exactly when neither the password nor the scalar is zero and the masked share is not the point at infinity |
| `Spake2.SharedIsProduct` | web/src/spake2.ts:210-219 | Unmasking the other side's message and multiplying by one's own scalar gives the product of both scalars, never the point at infinity |
| `Spake2.TranscriptInjective` | web/src/spake2.ts:35-65 | Two transcripts are equal if and only if their fields are, a missing AAD and an empty one being the same |
| `Spake2.ParseInverts` | web/src/spake2.ts:28-65 | A parser inverts the length-prefixed encoding |
| `Spake2.BuildTranscript` | web/src/spake2.ts:35-65 | The pushes and the offset copies compute the concatenation of the length-prefixed fields |
| `Spake2.SetAll` | web/src/spake2.ts:57-64 | The offset-copy loop computes the concatenation of the parts |
| `Spake2.EncodeLength` | web/src/spake2.ts:28-33 | The eight bytes of a length, least significant first |
| `Spake2.ScalarToBytes` | web/src/spake2.ts:75-83 | The mask-and-shift loop computes the 32-byte big-endian encoding |
| `Spake2.ScalarRoundTrip` | web/src/spake2.ts:19-26 | The big-endian fold undoes scalarToBytes below 2^256 |
| `Spake2.FoldBytes` | web/src/spake2.ts:19-26 | The shift-or fold computes the big-endian value |
| `Spake2.OrShifted` | web/src/spake2.ts:22-24 | Or-ing a value into clear low bits is adding it |
| `Spake2.ConstantTimeEqual` | web/src/spake2.ts:282-290 | The xor-or loop answers equality of the two byte strings |
| `Spake2.SPAKE2Server.Exchange` | web/src/spake2.ts:121-149 | Sets transcript and keys of the run its inputs determine, or throws and leaves them as they were |
| `Spake2.SPAKE2Server.Confirm` | web/src/spake2.ts:151-163 | Accepts exactly the client confirmation of its own transcript, after an exchange, and answers with its own |
| `Spake2.SPAKE2Client.Start` | web/src/spake2.ts:202-208 | Returns the masked share of the drawn scalar, or throws |
| `Spake2.SPAKE2Client.Finish` | web/src/spake2.ts:210-238 | Sets transcript and keys of the run its inputs determine and returns its confirmation, or throws and leaves them as they were |
| `Spake2.SPAKE2Client.Verify` | web/src/spake2.ts:240-249 | Accepts exactly the server confirmation of its own transcript |
| `Spake2.CompleteSPAKE2` | web/src/spake2.test.ts:62-73 | A whole handshake over a faithful channel: it succeeds exactly when both messages exist, and then both hold the same session key |
| `Code.NormalizeIff` | internal/code/code.go:47-63 | An input is accepted exactly when it has six words between spaces and dashes, each in the list up to case; the result joins them in lower case; else the error is the number of words or the first unknown one |
| `Code.Idempotent` | internal/code/code.go:47-63 | Normalising twice is normalising once |
| `Code.GeneratedFixed` | internal/code/code.go:34-45 | Every code Generate can produce is accepted and left as it is |
| `Code.EqualIff` | internal/code/code.go:47-63 | Two accepted inputs normalise equally exactly when they have the same six words up to case |
| `Code.AcceptedForm` | internal/code/code.go:62-62 | An accepted code has no space, and splitting it at the dashes alone gives six listed words |
| `Code.GeneratedForm` | internal/code/code.go:34-45 | So does a generated one: the words drawn, in the order drawn |
| `Code.SplitIsWords` | internal/code/code.go:48-51 | Trimming, lower-casing, replacing dashes and splitting finds the words between spaces and dashes, in lower case |
| `Code.WordsOfJoin` | internal/code/code.go:62-62 | Splitting undoes joining |
| `Code.NormalizeInput` | internal/code/code.go:47-63 | The checking loop stops at the first word that is not in the set |
| `Code.Generate` | internal/code/code.go:34-45 | The loop fills in the drawn words, joined by dashes |
| `Code.BuildWordSet` | internal/code/code.go:21-27 | The loop builds the set of the listed words |

## Left out

- RoutingTheorem: a revocation whose rekeys cannot all be sent is one step here; which rekeys were sent is in Sharer.Revoke.
- RegisterViewer: locking the pages of a key buffer always succeeds.
- FateDecides: two frames in flight at once, of the stream loop and of a resize in another goroutine, whose nonces may arrive in the wrong order; whether the older frame then counts as a failure depends on the viewer's clock.
- HandshakeCompletes: one handshake while the sharer has nothing else to read; other viewers may be attached and receive frames before and after.
- KeyAgreementAndCompleteness: the end of the session is not a step; control messages the relay writes past the queues (join-ack, session-ended, pong) are not part of the FIFO.
- Take: what the writer still drains from a channel after it was closed is part of Honest.dfy only, as messages an evicted viewer may still read.
- RecvHandshakeMsg: the wait for the join-ack before it.
- Close: it is called once the sharer's run has ended; the sharer's own exit path is not modelled.
- SPAKE2 inside the Go programs is foreign code; its answers are arguments, restricted in Honest.dfy as said above.
- Session.ListViewers, WasRevoked, NextNonce and CurrentEpoch: they only read or count fields that the model has.
- The web client's stream handlers (web/src/client.ts): they await between nonce check and update, so the ordering theorems are not about them.
- WebSocket, TLS, HTTP routing, address extraction, heartbeats, timers, probes, logging, page locking: input and output plumbing; a timeout is a step that may happen at any time.
- Terminal, status bar, PID file, IPC and command line: not modelled.
- AES-GCM, HKDF, Argon2id, SHA-256, HMAC, P-256 and unicode case mapping are arbitrary functions with the laws stated beside them.
- Handshake-failure rate limiting: no handler records that event, so it is one more event kind of the limiter.
- Saturation of Go's time differences beyond 292 years.
