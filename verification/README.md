# PAYPHONE: a verified model

PAYPHONE is a VPN written in Rust. This project models the parts of it that are
hard to get right and proves what they promise:

- **Sessions** — the server's table (`Sessions`, `SessionManager`), its binary
  store (`Store`) and its whole life including restarts (`TableRuns`).
- **Rotation** — resume tokens offered, confirmed and resumed between one client
  and the server, with losses, reconnects, failed saves, misread frames and crashes
  (`Rotation`, `RotationProof`), what they achieve when nothing is lost (`RotationLive`),
  and two runs that lose the token (`RotationMisread`, `RotationLost`).
- **Rate and data path** — the token bucket under races (`RateLimit`) and the
  concurrent data handlers (`DataPath`, `AddressHandover`).
- **TLS 1.3 by hand** — ClientHello (`Shuffle`, `ClientHello`, `ClientHelloProof`),
  the proof of identity hidden in it (`RealityAuth`), the borrowed ServerHello
  (`ServerHello`), the flight and the whole handshake (`Flight`, `Handshake`,
  `HandshakeProof`), what it proves about the server (`Certificates`), records and the
  polled byte channel (`TlsRecord`, `TlsStream`), and all of it together (`Connection`).
- **Streams and batches** — the record spy (`RecordSpying`), obfuscated datagrams sent
  and received in batches (`Obfuscation`, `Receiving`) and the revocation file
  behind its cache (`Revocation`, `RevocationCache`).

`dafny verify dfyconfig.toml` checks everything. Clocks, random draws, results of
system calls and the bytes of peers are parameters, so each theorem holds for all
of them. Hashes, HMAC, AEAD, X25519 and signatures are functions of which only laws
are known (opening undoes sealing, sealing adds 16 bytes, Diffie-Hellman commutes,
own signatures verify); `LawsCanBeMet` shows that the laws can hold together.

Assumptions of the rotation theorems: nonces and session ids are drawn new and no
nonce is all-zero, the store is written before the reply leaves, each link keeps its
order, and frames of an abandoned connection are not delivered. The theorems hold until
a misread frame happens to carry one of the server's own nonces.

## What does not hold

Each of these is proved, with the exact condition under which the property holds.

- The desktop client decodes the payload of any frame as a token while it waits for
  an offer, so a 48-byte Data payload that starts with the session id is taken for a
  token (`AgreementFailsOnMisread`). In every state of every run the file's token is
  accepted if and only if it is none of those taken from such frames and at most one
  confirmed rotation went by since it was written (`SavedTokenResumes`); the next Rekey
  frame whose token is saved puts the file right again (`NextSavedTokenMends`). A client
  that looks at the frame type never misreads (`StrictNeverMisreads`).
- A second confirmed rotation without a successful save in between loses the saved
  token (`TwoLostSavesLoseTheToken`); no other step does (`OnlyASecondRotationBreaks`).
- The handshake does not ask for a certificate: a Finished on its own completes it
  (`NoCertificateIsAsked`). The client has authenticated the server by its certificate
  if and only if the messages in the records it read contain a CertificateVerify behind
  the Certificate it ended with (`ServerAuthenticatedIff`).
- A store file that decodes need not be a good table: a session at 0.0.0.0, or two at
  one address, are loaded (`StrangeAddressIsLoaded`, `SharedAddressIsLoaded`). The
  loaded table is good if and only if the last records of each id in the file hold
  distinct addresses of the pool (`LoadedIsGoodIff`).
- With two usable key shares in the site's ServerHello the patch reports success and
  the client finds the site's key (`TwoSharesKeepTheirKey`, `PatchWorksIffOneShare`).
- The server hashes all of the borrowed handshake record, the client only its first
  message (`HellosAgreeIffAlone`).
- The length test of a received batch skips the last datagram. Two datagrams that
  are equally long on the wire but not in payload come out with wrong boundaries
  when the second is longer (`TwoDatagrams`, `LongerSecondIsCut`); an empty last one
  is lost (`EmptyLastIsDropped`).
- A received payload that has to move into a smaller buffer ends the program; with
  buffers of one size that cannot happen (`KeepDecoded`, `EqualBuffersFit`).
- A packet is written to the TUN after the lock is released; by then its address can
  belong to another session (`AddressCanChangeHands`). It is still the sender's if and
  only if no request in between removed or evicted the session (`StillOwnedIff`).
- Appending to a revocation file that exists and cannot be read, for example because it
  is not UTF-8, writes over it and loses the ids it lists (`UnreadableFileLosesIds`,
  `AppendKeepsListedIff`).
- The revocation cache misses a change under the modification time it was read with
  (`ReusedTimeIsMissed`), and nothing else (`SameTimeIff`). The comment on the store
  type says that a missing file is an empty set; the code keeps the last set it loaded,
  and so does the model.

## Model

| member | source | states |
|---|---|---|
| `Sessions.NextKeepsInv` | payphone-server/src/session.rs:345-590 | every request and housekeeping pass keeps each session under its own id and all addresses distinct and inside 10.77.0.2-254 |
| `TableRuns.EveryRunIsSafe` | payphone-server/src/session.rs:310-393 | the same in every state of every run, with restarts from any store file written earlier; at most 253 sessions exist |
| `TableRuns.PoolCapacity` | payphone-server/src/session.rs:696-706 | allocation fails if and only if all 253 addresses are taken |
| `TableRuns.RestartsWell` | payphone-server/src/session.rs:310-343 | loading a store of a reachable table gives every session back under its id and address |
| `TableRuns.LoadedIsGoodIff` | payphone-server/src/session.rs:770-875 | for any bytes the loaded table keeps the invariant if and only if they do not decode, or the last record of each id holds an address of the pool that the last record of no other id holds |
| `TableRuns.WrittenIsGoodIff` | payphone-server/src/session.rs:728-875 | the same in terms of sessions written by the encoder |
| `TableRuns.StrangeAddressIsLoaded` | payphone-server/src/session.rs:792-868 | a file with one session at 0.0.0.0 loads and breaks the invariant |
| `TableRuns.SharedAddressIsLoaded` | payphone-server/src/session.rs:792-868 | a file with two sessions at one address loads and breaks the invariant |
| `Store.StoreRoundTrip` | payphone-server/src/session.rs:728-910 | decoding an encoded table, in whatever order the map was walked, gives the same sessions detached and without client address, nonces included exactly when no optional nonce is all-zero |
| `Store.RecordRoundTrip` | payphone-server/src/session.rs:737-765 | one 206-byte record decodes to the session that was written |
| `Store.DecodesIff` | payphone-server/src/session.rs:770-875 | which files are read and which of five errors the others give: magic, version, exact length for the count, and a plan of 1 to 3 in every record |
| `SessionManagement.SessionManager.WithStore` | payphone-server/src/session.rs:310-343 | the table loaded from any bytes, empty when they do not decode; the manager is valid if and only if the loaded addresses are distinct and of the pool, and always for a file written from a valid table |
| `SessionManagement.SessionManager.CreateSession` | payphone-server/src/session.rs:345-393 | all or nothing: either the client's excess was evicted and the session stands at the lowest free address on disk, with every field as given and the server nonce as the one token that resumes it, or no address was left and table and disk are unchanged |
| `SessionManagement.SessionManager.EnforceDeviceLimit` | payphone-server/src/session.rs:642-660 | exactly max(0, count - max(limit, 1) + 1) sessions of this client go, none that a survivor ranks before, and nobody else's |
| `SessionManagement.SessionManager.FindOldest` | payphone-server/src/session.rs:669-694 | the choice: detached before live, then longest idle |
| `SessionManagement.AnyKickFreesAnAddress` | payphone-server/src/session.rs:355-359 | if no address is left after eviction then nobody was evicted |
| `SessionManagement.SessionManager.AllocateIpv4` | payphone-server/src/session.rs:696-706 | the lowest host nobody holds, or none when all are held |
| `SessionManagement.SessionManager.ResumeSession` | payphone-server/src/session.rs:395-442 | accepts current, previous and pending tokens only, keeps the address, and the new table is on disk before the answer |
| `SessionManagement.SessionManager.OfferRekey` | payphone-server/src/session.rs:443-469 | repeats a pending nonce or makes the drawn one pending and writes it to disk |
| `SessionManagement.SessionManager.ConfirmRekey` | payphone-server/src/session.rs:471-505 | only the pending nonce commits; the old current one stays acceptable as previous |
| `SessionManagement.SessionManager.TouchPing` | payphone-server/src/session.rs:507-542 | the new table of a ping, whether in the window or not, and the offer it repeats |
| `SessionManagement.SessionManager.RemoveSession` | payphone-server/src/session.rs:548-556 | removes that session only and writes the store |
| `SessionManagement.SessionManager.FindByIpv4` | payphone-server/src/session.rs:586-590 | the live session with that address, the same for every walk of the map |
| `SessionManagement.SessionManager.WriteStore` | payphone-server/src/session.rs:728-768 | the loop writes the encoding of the whole table |
| `SessionManagement.SessionManager.ReadStore` | payphone-server/src/session.rs:770-875 | the cursor loop on any bytes computes the decoding and never reads past the end |
| `RotationProof.SavedTokenResumes` | payphone-client/src/main.rs:167-375 | in every state of every run with losses, reconnects, failed saves, misread frames and crashes in which the session of the file's token is still there: the token resumes, with its own address, if and only if it was not taken from a misread frame and at most one confirmed rotation outran the file |
| `RotationLive.SavedTokenIsPresented` | payphone-client/src/main.rs:297-320 | from every state of every run: an offline client that dials sends the token of its file, and asks for a new session only when there is none |
| `RotationLive.SavedTokenComesBack` | payphone-client/src/main.rs:167-320 | from every such state, when nothing is lost: the run of dialling, server, answer exists, and ends with the session back at the address it was born with and the file unchanged if and only if the server has the session and takes the token; otherwise it ends with a denial and the request for a new session |
| `RotationLive.EveryTakenTokenIsConfirmed` | payphone-client/src/main.rs:336-366 | every token of a Rekey frame that the client takes is confirmed on the link, saved or not, but for the acknowledgement of a confirmation |
| `RotationLive.ResumedOrNew` | payphone-client/src/main.rs:190-229 | the answer that names the saved session is accepted and a token asked for; any other frame makes the client forget the file and ask for a new session |
| `RotationLive.NoAnswer` | payphone-client/src/main.rs:190-375 | silence: a new session is asked for, or the connection given up, or the tunnel entered without a token |
| `RotationLive.SavedOrGivenUp` | payphone-client/src/main.rs:235-296 | a new session counts only when its token was saved |
| `RotationLive.NewSessionArrives` | payphone-server/src/handler.rs:149-250 | a first message, answered: the client's file holds the token of the session in the table and on disk, or the client was denied because no address is left |
| `RotationLive.TokenRotates` | payphone-client/src/main.rs:323-375 | from any state in which the client has asked: six steps after which the offered token is the server's current one, the old one the one before it, and the file holds it if either save worked |
| `RotationLive.ReturningClientRotates` | payphone-client/src/main.rs:297-375 | the ten steps of a returning client put together: it ends in the tunnel with the server's current token in its file |
| `RotationLive.PingAnswered` | payphone-server/src/handler.rs:377-423 | a ping up to 1023 behind is answered by a pong and, when a token is pending or the last rotation an hour ago, by that token or a new one; an older ping is not answered |
| `RotationLive.HourlyRotation` | payphone-client/src/tunnel.rs:215-237 | such a ping an hour after the last rotation, when nothing is lost: ten steps after which the new token is the server's current one and in the file |
| `RotationProof.StepKeepsGood` | payphone-server/src/session.rs:395-542 | every step of client, link, server and disk keeps the agreement, a misread frame too unless it carries one of the server's own nonces |
| `RotationProof.ServerStepKeepsGood` | payphone-server/src/handler.rs:251-313 | the same for the handlers, with a crash possible between change, store and reply |
| `RotationProof.CrashKeepsGood` | payphone-server/src/session.rs:770-875 | throwing the table away and decoding the disk keeps the agreement |
| `RotationProof.OnlyASecondRotationBreaks` | payphone-client/src/main.rs:323-375 | an accepted token in the file stays accepted through a step if and only if the step is not a rotation past a file that already lags by one |
| `RotationProof.AcceptedIffLagAtMostOne` | payphone-server/src/session.rs:406-426 | the same for one state under the invariants |
| `RotationProof.AcceptedAfterMisreadIff` | payphone-client/src/main.rs:336-352 | after a misread frame that carries none of the server's nonces, the server takes the file's token if and only if the misread one was not saved and it took the file's token before |
| `RotationProof.NextSavedTokenMends` | payphone-client/src/tunnel.rs:215-237 | whatever was misread before, from the next Rekey frame whose token is saved until another misread frame the file's token resumes if and only if the lag is at most one |
| `RotationProof.StrictNeverMisreads` | payphone-apple/PayphoneKit/Sources/PayphoneKit/PayphoneClient.swift:165 | a client that tests the frame type never holds a misread token |
| `RotationMisread.AgreementFailsOnMisread` | payphone-client/src/main.rs:336-346 | a run of six steps that leaves a saved token the server refuses although no save failed |
| `RotationLost.TwoLostSavesLoseTheToken` | payphone-client/src/main.rs:346-375 | a run from the start with two confirmed rotations and two failed saves that ends with a token the server refuses |
| `RateLimit.AdmittedBound` | payphone-server/src/session.rs:122-200 | for any threads, interleaving and clock readings: tokens never exceed the burst, and the bytes admitted are at most burst + rate * (last refill - start) / 1000 |
| `RateLimit.SpillsOnlyAtTheCap` | payphone-server/src/session.rs:174-189 | in every run a step cuts tokens off only by filling the bucket |
| `RateLimit.AllowAlone` | payphone-server/src/session.rs:122-200 | a call without contention is exact: from any reachable state it admits if and only if the bytes are at most the tokens plus 125 bytes per millisecond and megabit, capped by the burst, and leaves the difference |
| `RateLimit.StepKeepsInv` | payphone-server/src/session.rs:122-192 | every atomic step conserves tokens: admitted, in the bucket, on their way in, or cut off by the cap |
| `RateLimit.ClaimKeepsInv` | payphone-server/src/session.rs:151-172 | each stretch of time is claimed by one successful swap only |
| `DataPath.EveryPacketHasItsOwner` | payphone-server/src/handler.rs:336-372 | every packet ever written, before and after restarts: the step at which its session was there, its sender's address right and its subscription not expired, the later one at which its number was above the highest since the last create or resume less 1024, and the later one still at which its source was compared, when it came from the client of the one session owning that address |
| `DataPath.KnownIff` | payphone-server/src/handler.rs:336-350 | the gate lets a frame on if and only if the session exists, the sender's address is right and the subscription has not expired |
| `DataPath.GoodPacketIsWritten` | payphone-server/src/handler.rs:336-375 | a frame that meets all conditions reaches the TUN |
| `DataPath.SourceIff` | payphone-tun/src/lib.rs:186-231 | which packets have a source, and where it stands |
| `DataPath.AcceptedIffInWindow` | payphone-server/src/session.rs:39-43 | whatever the interleaving, a frame passes if and only if its number is above the highest since the last create or resume, less 1024 |
| `DataPath.HighestIsMaximum` | payphone-server/src/session.rs:428-434 | that highest number is a maximum of the last create or resume sequence and all offered since |
| `DataPath.StepKeepsInv` | payphone-server/src/handler.rs:315-375 | every step of every handler, request and restart keeps the invariant behind the two above |
| `DataPath.StillOwnedIff` | payphone-server/src/handler.rs:336-375 | between letting a packet through and writing it: the sender still owns the address when it is written if and only if no request in between removed or evicted its session |
| `AddressHandover.AddressCanChangeHands` | payphone-server/src/handler.rs:366-375 | a run from the start in which a packet is written while another session owns its source address |
| `Shuffle.ShuffleMiddle` | payphone-transport/src/reality/hello.rs:458-467 | the in-place loop computes the shuffle of its random bytes |
| `Shuffle.ShufflesArePermutations` | payphone-transport/src/reality/hello.rs:458-467 | the possible results are exactly the permutations |
| `ClientHello.GreasePair` | payphone-transport/src/reality/hello.rs:448-456 | two different GREASE values, whatever is drawn |
| `ClientHelloProof.EncodeExtensions` | payphone-transport/src/reality/hello.rs:300-346 | the bytes are the encoding of the shuffled list between the two GREASE extensions |
| `ClientHelloProof.HelloRoundTrip` | payphone-transport/src/reality/hello.rs:84-228 | for every order of the middle extensions, every GREASE pair and every name whose lengths fit, the record parses to the random, the session id (at offset 39), the name, the key and the protocols it was built from |
| `ClientHelloProof.ParsesIff` | payphone-transport/src/reality/hello.rs:84-140 | exactly those records are read that hold a ClientHello with well-formed extensions, written out byte by byte, and what is read is its random, its session id and what the extensions say |
| `ClientHelloProof.HelloSize` | payphone-transport/src/reality/hello.rs:246-277 | the exact length of a hello, the same for every order |
| `ClientHelloProof.ParseExtensions` | payphone-transport/src/reality/hello.rs:142-162 | the loop: error on an overrun, otherwise what the last extension of each kind says |
| `ClientHelloProof.ReadAlpn` | payphone-transport/src/reality/hello.rs:164-184 | the loop collects the names up to the first that overruns |
| `ClientHelloProof.FindShare` | payphone-transport/src/reality/hello.rs:203-228 | the loop returns the first X25519 key, plain or at the end of a hybrid share |
| `ClientHello.EntriesOfEncoded` | payphone-transport/src/reality/hello.rs:142-162 | parsing undoes encoding of any extension list |
| `ClientHello.SniRoundTrip` | payphone-transport/src/reality/hello.rs:186-201 | any UTF-8 name that fits is read back |
| `ClientHello.AlpnRoundTrip` | payphone-transport/src/reality/hello.rs:370-379 | any protocol list that fits is read back |
| `ClientHelloProof.SessionIdSplice` | payphone-transport/src/reality/tls13.rs:86-102 | overwriting bytes 39 to 71 of a hello is building it with the other session id |
| `RealityAuth.FirstRecord` | payphone-transport/src/reality/tls13.rs:75-108 | the record sent is the hello whose session id is sealed over the hello with zeros in its place |
| `RealityAuth.SessionIdOpens` | payphone-transport/src/reality/auth.rs:32-72 | the server opens what the client sealed and both derive the same key |
| `RealityAuth.HonestIffConfigured` | payphone-transport/src/reality/mod.rs:149-212 | an honest hello is accepted, with the client's key, if and only if its short id is listed, its name allowed and its clock near enough; otherwise it is rejected |
| `RealityAuth.LetInIff` | payphone-transport/src/reality/mod.rs:149-212 | any record: let in if and only if it parses with a 32-byte session id, an X25519 share and an allowed name, its session id opens over the handshake with zeros in its place, the short id inside is listed and the stamp near enough; and which of the two errors comes otherwise |
| `RealityAuth.AcceptedWithinTwoMinutes` | payphone-transport/src/reality/mod.rs:34-212 | with the default configuration: accepted if and only if the clocks differ by at most 120 seconds |
| `ServerHello.ParseHello` | payphone-transport/src/reality/hello.rs:507-581 | the parser with its loop computes the view: fields, extension types in order, key of the last share |
| `ServerHello.Patch` | payphone-transport/src/reality/hello.rs:583-649 | in place: true if and only if there is a window, which then holds our key; nothing else changes, and nothing at all when false |
| `ServerHello.PatchKeepsView` | payphone-transport/src/reality/hello.rs:507-649 | with one share the patched message parses to the same view with our key; with more it parses as before |
| `ServerHello.PatchWorksIffOneShare` | payphone-transport/src/reality/hello.rs:583-649 | the patch does what it is for if and only if there is one share it could patch |
| `HandshakeProof.TwoSharesKeepTheirKey` | payphone-transport/src/reality/hello.rs:612-645 | a message with two shares on which the patch succeeds and the parser still finds their key |
| `HandshakeProof.BorrowedIsUsable` | payphone-transport/src/reality/tls13.rs:404-413 | the site's hello with one share, a known suite and nothing behind it can be borrowed, and carries our key |
| `HandshakeProof.BuiltIsUsable` | payphone-transport/src/reality/hello.rs:651-695 | the hello built without a site parses to our key and suite |
| `HandshakeProof.AnswersInTheSitesWords` | payphone-transport/src/reality/tls13.rs:265-290 | whenever the server answers, its first record is the site's hello with our key inside one of its key shares and the site's suite, if that has a known suite and can be patched, and otherwise a hello with our random, the client's session id, suite 0x1301 and our key |
| `HandshakeProof.AcceptIff` | payphone-transport/src/reality/tls13.rs:250-283 | for any hello: when the server answers and which error comes otherwise |
| `HandshakeProof.HellosAgreeIffAlone` | payphone-transport/src/reality/tls13.rs:510-532 | both transcripts start alike if and only if the hello is alone in its record |
| `Handshake.SizesAreUsedOnce` | payphone-transport/src/reality/splice.rs:30-58 | every record size of the site is imitated once and in order, by one record when the first is over 512 bytes and by four otherwise |
| `Handshake.FlightHasSiteSizes` | payphone-transport/src/reality/tls13.rs:314-328 | four records with one message each, or one with all; each has the length of the site's record in that place, unless its message needs more |
| `Handshake.DestFlight.FillPads` | payphone-transport/src/reality/splice.rs:37-47 | the loop gives the first four sizes, and none where there are fewer |
| `Handshake.DummiesAreInvisible` | payphone-transport/src/reality/tls13.rs:333-342 | each dummy is an inner handshake record of exactly one of the site's lengths |
| `Handshake.DummiesImitateAll` | payphone-transport/src/reality/tls13.rs:333-342 | one dummy for every size of at least 23 bytes, in order, and none besides |
| `Handshake.ReadServerHello` | payphone-transport/src/reality/tls13.rs:510-532 | the loop returns the first whole message |
| `Handshake.WaitForFinished` | payphone-transport/src/reality/tls13.rs:346-377 | the server's loop on any bytes from the client |
| `Flight.CertificateRoundTrip` | payphone-transport/src/reality/tls13.rs:480-543 | the leaf of a Certificate message is read back |
| `Flight.VerifyRoundTrip` | payphone-transport/src/reality/tls13.rs:491-583 | our CertificateVerify passes the client's check over the same transcript |
| `Flight.DrainBuffer` | payphone-transport/src/reality/tls13.rs:148-196 | the inner loop handles every complete message and keeps the rest |
| `Flight.ReceiveFlight` | payphone-transport/src/reality/tls13.rs:130-202 | the outer loop on any bytes from the server |
| `Flight.CutAnywhere` | payphone-transport/src/reality/tls13.rs:146-196 | a flight cut at any byte: the first part is accepted without finishing and the rest completes it |
| `Flight.AnyCutIsReceived` | payphone-transport/src/reality/tls13.rs:130-202 | however the flight is cut into records and padded, the client ends as on the flight in one piece and reads no record too many |
| `HandshakeProof.ClientGoesOnOnlyChecked` | payphone-transport/src/reality/tls13.rs:134-202 | whatever bytes a server sends: when the client goes on, a Finished over the transcript it computed itself has matched; and if it holds a certificate, that is marked or pinned |
| `Certificates.ServerAuthenticatedIff` | payphone-transport/src/reality/tls13.rs:134-202 | for any bytes on which the client goes on: the messages it took are the whole messages in the contents of the records it read, and it ends with a trusted leaf whose CertificateVerify it checked over its transcript if and only if one of these is a CertificateVerify that follows a Certificate with the leaf sent last |
| `Certificates.AuthenticatedIffVerifyFollows` | payphone-transport/src/reality/tls13.rs:150-170 | with at most one Certificate among the messages: if and only if a CertificateVerify comes after it |
| `Certificates.OnlyKnownMessages` | payphone-transport/src/reality/tls13.rs:148-196 | the client takes only EncryptedExtensions, Certificate, CertificateVerify and Finished, and behind Finished tickets and key updates |
| `Certificates.StandsAfter` | payphone-transport/src/reality/tls13.rs:148-196 | its transcript is the hellos and every message taken but tickets and key updates, and it has finished if and only if a Finished was among them |
| `Certificates.NoCertificateIsAsked` | payphone-transport/src/reality/tls13.rs:171-184 | a hello and one record with Finished complete the handshake, without a certificate and whatever the mark and pin |
| `HandshakeProof.FinishedIsAwaited` | payphone-transport/src/reality/tls13.rs:346-377 | the server accepts a Finished if and only if it is over the server's own transcript |
| `HandshakeProof.EchoIsReadable` | payphone-transport/src/reality/tls13.rs:455-478 | EncryptedExtensions parse to one protocol of the client's list, h2 whenever it was offered, or to nothing when none was |
| `HandshakeProof.FlightIsComplete` | payphone-transport/src/reality/tls13.rs:301-312 | the server's four messages pass every check of the client and leave it with the server's transcript |
| `HandshakeProof.HandshakeAgrees` | payphone-transport/src/reality/tls13.rs:269-377 | whatever the site's sizes, if each record fits: equal transcripts, both Finished accepted, equal application keys, and only the dummies left to read |
| `HandshakeProof.HonestConnection` | payphone-transport/src/reality/tls13.rs:69-213 | from the client's first record on: let in, same key, the handshake above, and only the dummies left to read |
| `HandshakeProof.DummiesBeginTheStream` | payphone-transport/src/reality/tls13.rs:333-342 | the dummies are the first records of the server's stream and carry no data |
| `HandshakeProof.BeforeDataIsStream` | payphone-transport/src/reality/tls13.rs:333-388 | the dummies of the flight and those after the client's Finished are the first records of the server's stream, numbered on, and carry no data |
| `TlsRecord.NonceInjective` | payphone-transport/src/reality/suite.rs:245-252 | two records of one key never share a nonce |
| `TlsRecord.NonceIsXor` | payphone-transport/src/reality/suite.rs:245-252 | the nonce is the iv with its last eight bytes xored with the record number, most significant byte first |
| `TlsRecord.SealOpens` | payphone-transport/src/reality/suite.rs:259-341 | what was sealed under a number opens under it, whatever the padding and the zeros at the end of the content |
| `TlsRecord.PadHitsLength` | payphone-transport/src/reality/suite.rs:259-281 | a padded record has the asked length when it fits |
| `TlsRecord.PopPadding` | payphone-transport/src/reality/suite.rs:331-341 | the loop finds the last byte that is not zero |
| `TlsStream.Writer.PollWrite` | payphone-transport/src/reality/tls13.rs:724-770 | for every pattern of short writes, Pending and failures: the record under way, or a new one of up to 14 KiB, is finished, and exactly its bytes reported, when all of it is on the wire; otherwise nothing is reported and the transport's last answer was that it would not go on |
| `TlsStream.Assembler.PollRecord` | payphone-transport/src/reality/tls13.rs:613-658 | for every pattern of short reads: no byte is lost or used twice, a returned record is the next on the stream, and no record comes only when the transport said so last or the header has a bad length |
| `TlsStream.Reader.PollRead` | payphone-transport/src/reality/tls13.rs:661-721 | on any stream: what was delivered and buffered is the data of the records read, each accepted under its number; an error comes exactly from a bad length or a record that cannot be accepted, and the caller's room is filled as far as the data go; from an honest peer no error comes |
| `TlsStream.ChannelIsFaithful` | payphone-transport/src/reality/tls13.rs:612-770 | in any state of a writer and a reader on one pipe: the bytes delivered are a prefix of the bytes reported taken, and the reader's record number is not past the writer's |
| `TlsStream.NothingIsKept` | payphone-transport/src/reality/tls13.rs:612-770 | when the wire is read to its end and nothing is pending or buffered, all bytes reported taken have been delivered |
| `TlsStream.Converse` | payphone-transport/src/reality/tls13.rs:612-770 | writes, reads and moves of the network in any order over one pipe: after every turn the bytes given to one application are a prefix of those reported taken, and these of what the other application wrote |
| `Connection.Connected` | payphone-transport/src/reality/tls13.rs:69-402 | an honest client and server whose records fit, from the first one on: both ends hold the same keys crosswise, the server's dummies begin its stream and carry no data, the same holds after every turn of both directions in any order, and no two records of a direction share a nonce |
| `RecordSpying.RecordSpy.NoteWrite` | payphone-transport/src/reality/record_detect.rs:90-108 | the flag holds if and only if the six bytes occur in everything written, with at most five bytes kept |
| `RecordSpying.RecordSpy.NoteRead` | payphone-transport/src/reality/record_detect.rs:110-137 | the lengths are those of the 0x17 records of all that was read since |
| `RecordSpying.OccursAcrossCut` | payphone-transport/src/reality/record_detect.rs:95-107 | five bytes are enough: a match in the whole is one in the old part or in the tail with the new chunk |
| `RecordSpying.RecordsAcrossCut` | payphone-transport/src/reality/record_detect.rs:115-136 | the records of a stream are those of its first part and those of its leftover with the second part |
| `Obfuscation.DatagramRoundTrip` | payphone-transport/src/obfuscation.rs:201-278 | any payload that fits comes back, whatever salt and padding |
| `Obfuscation.DecodesIff` | payphone-transport/src/obfuscation.rs:201-278 | whatever arrives decodes to a payload if and only if it is that payload, of less than 64 KiB, obfuscated under some salt with some padding |
| `Obfuscation.ObfuscateTransmit` | payphone-transport/src/obfuscated_socket.rs:55-83 | an error if and only if a datagram does not fit; otherwise the wire and its segment size |
| `Obfuscation.EvenIffRestored` | payphone-transport/src/obfuscated_socket.rs:68-78 | cutting joined datagrams gives them back if and only if all but the last have the segment size and the last is not empty or longer |
| `Receiving.TransmitRoundTrip` | payphone-transport/src/obfuscated_socket.rs:55-156 | what was sent as one transmit and received as one buffer is the same contents with the same stride |
| `Receiving.DeobfuscateInto` | payphone-transport/src/obfuscated_socket.rs:94-156 | in place: the decoded datagrams compacted at the front with their stride, the rest of the buffer as it was; everything as it was when nothing decodes |
| `Receiving.DeliveredIff` | payphone-transport/src/obfuscated_socket.rs:127-156 | on any buffer: all decoded datagrams arrive if and only if the last is not empty and no longer than the first; with uneven ones before the last, the first arrives alone |
| `Receiving.TwoDatagrams` | payphone-transport/src/obfuscated_socket.rs:127-133 | two datagrams of one wire length both arrive if and only if the second carries 1 to as many bytes as the first |
| `Receiving.LongerSecondIsCut` | payphone-transport/src/obfuscated_socket.rs:127-133 | one and two bytes sent arrive as three datagrams of one byte |
| `Receiving.EmptyLastIsDropped` | payphone-transport/src/obfuscated_socket.rs:144-153 | an empty last datagram is lost, and only it |
| `Receiving.KeepDecoded` | payphone-transport/src/obfuscated_socket.rs:194-217 | exactly the buffers that decode are kept, in order and with their senders; the program ends early if and only if a payload does not fit the buffer it moves to |
| `Receiving.EqualBuffersFit` | payphone-transport/src/obfuscated_socket.rs:204-216 | among buffers of one size every payload fits where it moves |
| `Revocation.IdRoundTrip` | payphone-auth/src/verifier.rs:137-152 | what is written for an id is read as that id |
| `Revocation.ParsesIffSpells` | payphone-auth/src/verifier.rs:137-152 | a line is read as an id if and only if it is white space, 0x any number of times, the 32 digits in either case, and white space |
| `Revocation.ParseTokenId` | payphone-auth/src/verifier.rs:141-152 | the fill loop on any line |
| `Revocation.LoadedIffSpelled` | payphone-auth/src/verifier.rs:108-114 | an id is loaded if and only if what stands between two newlines, or the ends of the text, spells it |
| `Revocation.AppendRevokedId` | payphone-auth/src/verifier.rs:116-135 | the file afterwards, for a missing, readable or unreadable one and a write that succeeds or fails |
| `Revocation.AppendAddsExactlyOne` | payphone-auth/src/verifier.rs:108-135 | for a missing file and for every readable text, ended or not: afterwards exactly the ids listed before and the new one |
| `Revocation.AppendKeepsListedIff` | payphone-auth/src/verifier.rs:116-135 | the ids listed before survive if and only if the file was missing or readable, or the write failed, or it listed no other id |
| `Revocation.UnreadableFileLosesIds` | payphone-auth/src/verifier.rs:128-134 | an unreadable file with one id lists only the appended one afterwards |
| `RevocationCache.FileRevocationStore.IsRevoked` | payphone-auth/src/verifier.rs:81-106 | answer and new cache of one check, for every state of the file |
| `RevocationCache.EveryAnswerIsRight` | payphone-auth/src/verifier.rs:81-106 | over every history in which no text takes the modification time of another: membership in the file when it can be read, in the last loaded set when it is missing, true otherwise |
| `RevocationCache.RevokedStaysRevoked` | payphone-auth/src/verifier.rs:86-104 | an id once seen and never taken out of the file is revoked at every later check, whatever the modification times |
| `RevocationCache.SameTimeIff` | payphone-auth/src/verifier.rs:93-104 | at every point of every history, modification times used again or not: the answers for all ids are those of the file if and only if it does not list other ids than the copy read under its modification time |
| `RevocationCache.ReusedTimeIsMissed` | payphone-auth/src/verifier.rs:93-104 | a history from the start in which another text takes the place and the modification time of the one that was read, and the answer is wrong |

## Left out

- Quinn, rustls, tokio, TUN devices, sockets and timers: only an abstract link, clock, store and stream remain of them.
- The strength of the cryptography, the key schedule inside its functions, X.509 minting in `cert.rs`, and the quality of random bytes.
- Swift and Kotlin clients, except that a client may look at the frame type and may save late.
- QUIC datagrams out of order in the rotation protocol: a stale offer from two rotations back would break the agreement, so links keep their order.
- Failed writes of the session store: a write succeeds before the reply leaves.
- `RateLimit` keeps its two atomics as fields of a state machine of interleaved loads and swaps, not as a class; that the bucket starts full again after a restart is outside the bound.
- `DataPath` and the client half of `Rotation` are state machines for the same reason: their steps interleave; the result of the rate limiter is a parameter there.
- Detaching links, expiring and removing sessions in bulk appear as events on the table, not as methods of the class; creation time and rate state of a session are not kept.
- `poll_flush` and `poll_shutdown`, and an `AsyncWrite` caller that retries with other bytes than before.
- The check of the revocation file is one atomic step: a write between reading its time and reading its text is not modelled.
- The ClientHello reader before authentication takes at most 16384 bytes; names that long are not modelled, nor is the splice to the site for hellos that are not ours.
- Claims and tokens of payphone-auth, the fixed message codecs of payphone-core, routing, settings, DNS, the landing page and certificates renewal: straight-line code that would only add easy members.
