# Hotbox: a verified model

Hotbox keeps signing keys in a vault and signs for other programs. This project models its
most intricate parts in Dafny and proves what a caller relies on:

- the PKCS#11 module `pkcs11/hotbox.c`, a state machine of global login state, a cached token
  description and four sessions with a search cursor and a growing sign buffer, and its peer,
  the signing socket of the `token` package, down to every byte that crosses the socket;
- the key-store readers of the `keystore` package: the key derivation of RFC 7292 appendix B.2,
  the JKS cipher and store, certificate ordering, and the bags of a PKCS#12 file;
- the loopback relay of `bunker/bunker.go`, whose handlers interleave, and its shutdown;
- the formats that are stored or printed and read back: the sealed Android and bunker records,
  the `.env` block, and the version order that picks the newest build-tools.

## How it is laid out

| file | contents |
|---|---|
| `Bytes.dfy` | big-endian numbers and length-prefixed fields, and their inverses |
| `Frames.dfy` | socket frames, the PIN field, and the read and write loops over a chunking connection |
| `InfoCodec.dfy` | the token description, DER lengths, the bit length of a modulus |
| `Pkcs11.dfy` | the module as a function from state and call to state and reply, and its invariant |
| `Attributes.dfy` | reading attributes in place under the output-length convention |
| `Hotbox.dfy` | the module as classes updated in place, each call proved equal to that function |
| `Runs.dfy` | whole runs: multi-part signing, object search, the claims that are false |
| `Sessions.dfy` | what calls undo, refuse and leave behind, which calls break natural claims, what a template selects |
| `Answers.dfy` | what each call answers, said without its code: the checks in order, parts, searches, replies of the server |
| `TokenServer.dfy` | the server on a connection, and client and server together |
| `EndToEnd.dfy` | the module against a token: attributes, mechanisms, a whole session to the signature |
| `Pkcs12Kdf.dfy` | the key derivation, against the definition in RFC 7292 |
| `Keystore.dfy` | certificate ordering, the checks every entry passes, PKCS#12 bags |
| `Jks.dfy` | the chained-hash cipher, and the store printed and parsed |
| `Entries.dfy` | what every imported entry promises, and which keys, certificates and names of a file are taken |
| `Relay.dfy` | handlers interleaving one critical section at a time; no event is lost |
| `Progress.dfy` | the relay never stands still: every handler can come to rest, and every event arrives |
| `Delivery.dfy` | an event reaches a subscription at most once live and once by replay |
| `Bunker.dfy` | the relay's objects, and undisturbed handling of one message |
| `Shutdown.dfy` | `useKey`, `Close`, the serve goroutines and `Wait`, interleaved; everything can come to its end |
| `Records.dfy` | the sealed records, read through a capped writer |
| `DotEnv.dfy` | the `.env` block, printed and read back, and lines written by hand |
| `Versions.dfy` | version comparison with 64-bit wrap-around, and the newest usable directory |

Where the source updates objects in place there are classes, arrays and loops here, and their
methods are proved against functions; the lemmas are about those functions. Hashes, signatures,
`x509` and ASN.1 parsing are parameters: functions of which only output lengths are assumed.
A call into the socket takes its outcome as a parameter (`Net`): unreachable, out of memory, or
any byte stream at all, with any part of the request written before a connection breaks. Allocation failure in `append_sign` is a parameter too.

## What turned out false

Each of these is proved together with the exact condition under which the natural claim holds.

- "Signing implies logged in" (`Sessions.SigningBreaksIff`, `Sessions.SigningHoldsIff`), "no open
  session implies logged out" (`Sessions.LoginBreaksIff`, `Sessions.LoginHoldsIff`) and "closed
  slots are all zero" (`Sessions.ClosedBreaksIff`, `Sessions.ClosedHoldsIff`): each is broken by one
  kind of call only, named in these results, and holds throughout a run exactly when the run has no
  such call. Without conditions, no sign request leaves the module unless it is logged in
  (`Runs.SignSends`).
- Multi-part signing accepts messages up to 2^20 bytes, but 42 bytes surround the message in a
  request whose body is bounded by 2^20: exactly the messages longer than 2^20 - 42 bytes fail
  when they are finished (`TokenServer.SignEndToEnd`).
- `C_SignInit` admits `CKM_ECDSA`, and the server refuses it for the empty message, and nothing
  else that was admitted (`TokenServer.AdmittedMechanisms`).
- An issuer's label is the alias and `.ca<n>` exactly while the alias holds no NUL byte
  (`Runs.CaLabelIff`).
- `CKR_BUFFER_TOO_SMALL` leaves the operation running exactly when the buffer is below the
  predicted length; a signature longer than predicted ends it (`Sessions.TooSmallKeepsIff`).
- An event may be delivered under a subscription name whose present filters refuse it. They want it
  exactly when the last step to touch the name since the scan, if any, was a REQ whose filters match
  (`Relay.DeliveredWantedIff`); that the name once wanted it always holds (`Relay.OnlyWanted`).
- `compareVersions` subtracts machine integers, so it is right exactly when the first components
  that differ are no more than a machine integer apart (`Versions.ComparesIffFits`); for any integers further
  apart there are versions that compare wrongly (`Versions.FarApartComparesWrong`).
- A printed `.env` block is read back exactly when every field is free of line feeds and short
  enough for the scanner, 65535 bytes a line (`DotEnv.ReadsBackIffFits`).

## Model

| member | source | states |
|---|---|---|
| Bytes.NumBE | pkcs11/hotbox.c:383-408 | a number that fits its width is restored by the byte-wise decoding of its byte-wise encoding |
| Bytes.BENum | pkcs11/hotbox.c:383-408 | any byte string is the encoding, at its own width, of the number it decodes to |
| Bytes.TakeFieldOf | pkcs11/hotbox.c:410-421 | a length-prefixed field reads back whatever follows it |
| Bytes.TakeFieldOnly | pkcs11/hotbox.c:410-421 | whatever reads as a length-prefixed field is one |
| Frames.FrameRoundTrip | token/protocol.go:55-87 | a frame is read back if and only if its body is at most 2^20 bytes, and the rest of the stream is left alone |
| Frames.OnlyFramesRead | token/protocol.go:70-87 | every stream from which a frame is read starts with that frame's encoding, within the bound |
| Frames.FramePlaces | token/protocol.go:55-68 | version, kind, four bytes of length, then the body |
| Frames.Conn.ReadFull | pkcs11/hotbox.c:293-308 | however reads are chunked, n bytes are delivered exactly when the peer sends that many, and nothing past them is consumed |
| Frames.Conn.WriteFull | pkcs11/hotbox.c:310-324 | however writes are cut short, exactly the given bytes are sent, in order |
| Frames.Conn.ReadFrame | token/protocol.go:70-87 | reading a frame off a chunked connection accepts exactly the streams that start with a frame and leaves exactly what follows it |
| Frames.Conn.WriteFrame | token/protocol.go:55-68 | a frame is written whole, or not at all when its body is past the bound |
| Frames.TakePinIff | token/protocol.go:89-109 | a body is accepted exactly when it is a 32-byte PIN field and a rest, and both come back unchanged |
| Frames.PinBodyReads | token/protocol.go:89-109 | a PIN written by the Go side is read back, or refused, exactly by its length |
| InfoCodec.InfoRoundTrip | token/token.go:342-386 | for aliases of 1 to 128 bytes, 1 to 8 certificates and fields within their prefixes, parsing the server's description restores every field |
| InfoCodec.OnlyEncodingsParse | pkcs11/hotbox.c:445-497 | a description the client accepts is within those limits and is byte for byte what the server would write for it |
| InfoCodec.InfoPlaces | token/token.go:342-386 | the order and widths of the fields: alias, kind, the two parts of the key, the number of certificates, the certificates |
| InfoCodec.CertPlaces | token/token.go:368-384 | of a certificate: the whole, its subject, its issuer, its serial number |
| InfoCodec.ParsesIffAcceptable | pkcs11/hotbox.c:445-497 | a description the server can write is restored when the client's limits allow it and rejected whenever they do not |
| InfoCodec.InfoBody | token/token.go:342-386 | the server refuses exactly the descriptions whose lengths do not fit, and otherwise writes the encoding |
| InfoCodec.AppendCerts | token/token.go:368-384 | the certificate loop appends every certificate's fields in order, or fails on the first that does not fit |
| InfoCodec.DerLengthUnique | pkcs11/hotbox.c:423-443 | for every length up to 65535 the length octets written are the one form DER allows (section 10.1 of X.690), and no other octets are |
| InfoCodec.DerOctetReads | pkcs11/hotbox.c:423-443 | for every contents of up to 65535 octets a strict DER reader gets exactly the contents back from what is written, whatever follows |
| InfoCodec.OnlyDerOctetsRead | pkcs11/hotbox.c:423-443 | whatever that reader accepts has a minimal length and, up to 65535 octets, is byte for byte what is written for the octets read |
| InfoCodec.ModulusBits | pkcs11/hotbox.c:599-612 | with any number of leading zero bytes the result is the bit length: 2^(bits-1) <= N < 2^bits for N > 0, and 0 for 0 |
| InfoCodec.BitLenBrackets | pkcs11/hotbox.c:599-612 | no other exponent brackets the number between powers of two |
| Pkcs11.ApplyKeepsInv | pkcs11/hotbox.c:782-1279 | every call keeps the invariant: not initialized means nothing open and nothing cached; logged in iff the PIN is 32 bytes iff the key type is 1 or 2 iff 1 to 8 certificates are cached, else the cache is freed; a session not signing owns no buffer; len <= cap <= 2^20, cap 0 or 256 doubled; sent <= nfound <= 9 |
| Pkcs11.GrownBounds | pkcs11/hotbox.c:764-780 | doubling until a message of at most 2^20 bytes fits stays a power-of-two multiple of 256 and never passes 2^20 |
| Pkcs11.LoginGivesCache | pkcs11/hotbox.c:499-533 | whatever the peer answers, a login caches a whole valid description under the given PIN, or nothing |
| Pkcs11.AppendKeepsInv | pkcs11/hotbox.c:764-780 | adding a part, refused or not, keeps a session's buffer invariant |
| Hotbox.Session.Grow | pkcs11/hotbox.c:767-776 | growing the buffer keeps its contents and gives the least doubled capacity that meets the need, or changes nothing when memory runs out |
| Hotbox.Session.Append | pkcs11/hotbox.c:764-780 | the array-backed buffer holds its old contents followed by the part if and only if the message stays within 2^20 bytes and memory is to be had or the part fits; otherwise it is unchanged, and the code tells a message too long from want of memory |
| Hotbox.Session.Take | pkcs11/hotbox.c:1143-1146 | the copy loop hands out the next handles, at most as many as asked for, and moves the cursor by that many |
| Hotbox.CallRpc | pkcs11/hotbox.c:326-381 | one exchange writes one frame, or the part of it that the connection took, and yields the status and body of exactly the frame the peer sent, or the error for any other stream |
| Hotbox.Module.ParseIn | pkcs11/hotbox.c:445-497 | parsing into the globals with advancing pointers accepts and stores exactly what the description parser specifies |
| Hotbox.Module.C_Initialize | pkcs11/hotbox.c:782-793 | the new state and return value are those specified, and the invariant holds |
| Hotbox.Module.C_Finalize | pkcs11/hotbox.c:795-812 | every buffer and the cache are freed, every session closed, and the search fields left behind, as specified |
| Hotbox.Module.C_OpenSession | pkcs11/hotbox.c:949-979 | the first closed slot is zeroed and opened, or the specified error is returned and nothing changes |
| Hotbox.Module.C_CloseSession | pkcs11/hotbox.c:981-996 | the session is zeroed and its buffer dropped, no other session and not the login |
| Hotbox.Module.C_CloseAllSessions | pkcs11/hotbox.c:998-1014 | all sessions are zeroed, the login untouched |
| Hotbox.Module.C_Login | pkcs11/hotbox.c:1038-1055 | state, return value and bytes sent are those specified, for every answer of the peer |
| Hotbox.Module.C_Logout | pkcs11/hotbox.c:1057-1070 | the cache is freed and every session, signing or not, left as it was |
| Hotbox.Module.C_FindObjectsInit | pkcs11/hotbox.c:1096-1128 | the search loop stores the list the specification gives, which Answers.FoundIff characterises by the template |
| Hotbox.Module.C_FindObjects | pkcs11/hotbox.c:1130-1150 | the next handles are returned and the cursor moved by their number |
| Hotbox.Module.C_FindObjectsFinal | pkcs11/hotbox.c:1152-1167 | the search is forgotten, nothing else |
| Hotbox.Module.C_SignInit | pkcs11/hotbox.c:1169-1196 | signing starts with the mechanism and an empty buffer, or the specified error is returned and nothing changes |
| Hotbox.Module.C_Sign | pkcs11/hotbox.c:1225-1243 | state, reply and the request sent are those specified for the message as a whole |
| Hotbox.Module.C_SignUpdate | pkcs11/hotbox.c:1245-1261 | the specified slot and return value, which Answers.UpdateIff characterises, every other session's buffer unchanged |
| Hotbox.Module.C_SignFinal | pkcs11/hotbox.c:1263-1279 | state, reply and the request sent are those specified for the buffered message |
| Hotbox.Module.SignExchange | pkcs11/hotbox.c:535-589 | nothing is written without a 32-byte PIN and a message within the bound; the reply is read as specified |
| Hotbox.Module.C_GetAttributeValue | pkcs11/hotbox.c:1072-1094 | every entry of the template is filled in place and errors combined as specified, or none is touched and the first failing check is returned |
| Attributes.FillAll | pkcs11/hotbox.c:1083-1090 | the loop fills every entry, failed or not; a sensitive attribute outweighs every other error, otherwise the first error is returned |
| Attributes.FillIff | pkcs11/hotbox.c:616-693 | each outcome of an entry has one cause: the value and room for it, too little room, a private part, an attribute the object does not have; the length field says which |
| Attributes.AttributeEquals | pkcs11/hotbox.c:732-754 | asking for the length and then fetching decides exactly whether the attribute has the given bytes |
| Attributes.QueryThenFetch | pkcs11/hotbox.c:616-628 | memory as long as the length asked for is never too small: it receives exactly the value, and what lies behind it is left alone |
| Attributes.MatchedCanBeFetched | pkcs11/hotbox.c:726-762 | what a search matched can be fetched and is what the template asked for |
| Runs.Run | pkcs11/hotbox.c:782-1279 | the invariant holds after every sequence of calls |
| Runs.BufferIsParts | pkcs11/hotbox.c:1169-1279 | in every run a signing session holds exactly the concatenation of its successful parts since its last C_SignInit, under that call's mechanism, whatever happens on other sessions |
| Runs.PinIsLoginPin | pkcs11/hotbox.c:499-533 | in every run, while logged in, the cached PIN is the one the last successful login gave |
| Runs.SignSends | pkcs11/hotbox.c:535-560 | in every run the bytes C_SignFinal sends are the request for exactly those parts under the login's PIN, as far as the connection takes them, or nothing; nothing at all unless logged in |
| Runs.MultiPartIsOneShot | pkcs11/hotbox.c:1198-1279 | finishing a multi-part message answers and sends exactly what C_Sign does for the whole message in any run with the same login and mechanism |
| Runs.OthersLeaveSlot | pkcs11/hotbox.c:782-1279 | a call on another session, a login or a logout changes nothing in an open session |
| Runs.AskingIsFree | pkcs11/hotbox.c:1198-1223 | length queries, too small buffers and refused parts change nothing |
| Runs.LogoutAndCloseAreIndependent | pkcs11/hotbox.c:981-1070 | runs that reach both: after a logout a session is still signing, and after closing the last session the module is still logged in |
| Sessions.SigningBreaksIff | pkcs11/hotbox.c:1057-1070 | a call breaks "signing implies logged in" if and only if it is a successful C_Logout while some session is signing |
| Sessions.SigningHoldsIff | pkcs11/hotbox.c:782-1279 | in a run that claim holds all along if and only if no call of the run is such a logout |
| Sessions.LoginBreaksIff | pkcs11/hotbox.c:981-1014 | a call breaks "no open session implies logged out" if and only if it closes the last session, or all of them, while logged in |
| Sessions.LoginHoldsIff | pkcs11/hotbox.c:782-1279 | in a run that claim holds all along if and only if no call of the run is such a close |
| Runs.LoginCaches | pkcs11/hotbox.c:499-533 | against a server that answers with a valid description, a login caches exactly that description |
| Runs.CaLabelIff | pkcs11/hotbox.c:483-491 | an issuer's label is the alias and .ca and the number exactly when the alias holds no NUL byte |
| Answers.FoundIff | pkcs11/hotbox.c:1096-1128 | a search starts from exactly the objects of which every attribute of the template has exactly the bytes given, each once and ascending: all objects without a template, none when nobody is logged in |
| Answers.SearchFinds | pkcs11/hotbox.c:1096-1150 | in every run all that a search has given is the beginning of that list, as the template selected it when the search began, and the whole list once fewer handles are given than asked for, whatever happens on other sessions and to the login meanwhile |
| Answers.RefusedByFirst | pkcs11/hotbox.c:782-1279 | for all fourteen calls the first check that fails, in the order of their table, decides the code; nothing is changed, stored or sent |
| Answers.AcceptedHasEffect | pkcs11/hotbox.c:782-1279 | a call without socket that passes its checks returns CKR_OK and changes only what it is for |
| Answers.UpdateIff | pkcs11/hotbox.c:764-780 | a part is taken exactly when the message stays within 2^20 bytes and memory is to be had or it fits the buffer; the buffer then is the least of 256, 512, ... that holds it; each refusal has its own code |
| Answers.StreamAccepted | pkcs11/hotbox.c:1245-1261 | in every run a message of at most 2^20 bytes, cut into any parts, with any calls on other sessions and any logins and logouts between them, is accepted part by part, and the session holds exactly their concatenation |
| Answers.LoginIff | pkcs11/hotbox.c:499-533 | for every stream of the peer: the PIN is sent, and the login succeeds if and only if the reply is the encoding of a description within the limits, which alone is cached; every failure has its own cause and caches nothing |
| Answers.FinishIff | pkcs11/hotbox.c:535-589 | an attempted signature sends PIN, mechanism and whole message only while logged in and within 2^20 bytes, ends the operation, and returns the code of its cause; on success the caller has the peer's signature, never longer than the caller's buffer |
| Answers.AskingAnswers | pkcs11/hotbox.c:1198-1207 | asking for the length, or offering less, answers with the predicted length and keeps the operation |
| Runs.MatchesExact | pkcs11/hotbox.c:722-762 | the list a search works from holds every matching handle and no other |
| Runs.MatchesAscend | pkcs11/hotbox.c:1112-1123 | it is strictly ascending, so no handle is reported twice |
| Sessions.OpensIff | pkcs11/hotbox.c:949-979 | exactly when a session can be opened; the handle belonged to none that was open, the session starts from zero, and nothing else moves |
| Sessions.CloseUndoesOpen | pkcs11/hotbox.c:981-996 | closing the session just opened leaves the state as it was, the slot zeroed |
| Sessions.LoginOrNothing | pkcs11/hotbox.c:499-533 | a refused login leaves the module unchanged and logged out; an accepted one is exactly undone by C_Logout |
| Sessions.FailureChangesNothing | pkcs11/hotbox.c:782-1279 | a failing call changes nothing, except that an attempted signature ends the session's operation |
| Sessions.TooSmallKeepsIff | pkcs11/hotbox.c:1198-1223 | CKR_BUFFER_TOO_SMALL leaves the operation running if and only if the buffer is below the predicted length |
| Sessions.FinalizedIsZeroIff | pkcs11/hotbox.c:795-812 | after C_Finalize a slot is zero if and only if it was not read-write, was not searching, had no search results and had never started a signature |
| Sessions.ClosedBreaksIff | pkcs11/hotbox.c:795-812 | a call breaks "closed slots are all zero" if and only if it is a successful C_Finalize while some slot has such a leftover |
| Sessions.ClosedHoldsIff | pkcs11/hotbox.c:782-1279 | in a run that claim holds all along if and only if no call of the run is such a C_Finalize |
| Sessions.FinalizeLeaves | pkcs11/hotbox.c:795-812 | a run that reaches a closed slot that is not zero |
| Sessions.ClassSelects | pkcs11/hotbox.c:641-762 | asking for private keys selects handle 1, for certificates all others, for any other class nothing |
| Sessions.LabelSelects | pkcs11/hotbox.c:641-762 | the alias as a label selects the key and the leaf certificate, and never an issuer's, whatever bytes it holds |
| Sessions.EcPointDecodes | pkcs11/hotbox.c:682-685 | the EC point a logged-in client offers decodes to exactly the point the server described |
| TokenServer.MinBytesMinimal | token/sign.go:161-168 | an RSA number is sent without a leading zero byte and reads back as itself |
| TokenServer.FillBytes | token/sign.go:153-207 | a number fills its half of the array at fixed width, every other byte unchanged |
| TokenServer.FillRawEcdsa | token/sign.go:153-159 | the array holds both halves of the signature |
| TokenServer.FillUncompressed | token/sign.go:200-207 | the array holds the point marker and both coordinates |
| TokenServer.HalvesReadBack | token/sign.go:153-159 | both numbers of a signature are recovered from a string of twice the field size |
| TokenServer.CoordinatesReadBack | token/sign.go:200-207 | both coordinates are recovered from the uncompressed point |
| TokenServer.AdmittedMechanisms | token/sign.go:80-151 | the client's mechanism check and the server's dispatch agree: a mechanism is refused exactly when the key type does not admit it or an empty message is signed without a digest |
| TokenServer.PredictedLength | pkcs11/hotbox.c:591-597 | the length the client predicts from the public key is the length of every signature the server makes |
| TokenServer.Handle | token/token.go:215-239 | whatever stream a connection delivers, the server writes exactly the specified answer to its first frame |
| TokenServer.HandleInfo | token/token.go:241-255 | the specified answer, which TokenServer.PinRefusedIff and TokenServer.LoginEndToEnd characterise |
| TokenServer.HandleSign | token/token.go:257-298 | the signature of exactly the request's mechanism and data, or the status of the first check that fails |
| TokenServer.ProofEndToEnd | token/token.go:300-340 | a request with the token's PIN reaches the signer with exactly its two times and its answer reads back as the public key, the hash of the leaf and exactly the signature made; each refusal has its own status, and any other PIN gets the same refusal whatever would have been signed |
| TokenServer.SignEndToEnd | token/token.go:257-298 | for every message of at most 2^20 - 42 bytes the client returns exactly the key's signature or its refusal; every longer message fails, so 42 is the exact overhead |
| TokenServer.RequestParses | token/token.go:257-298 | the server takes from a request exactly the mechanism and data the client put in |
| TokenServer.PinRefusedIff | token/token.go:241-310 | a description, a signature or a proof is refused with the bare PIN status if and only if the request does not start with the length 32 and the token's own PIN, or a description is asked for with bytes behind it; those six bytes are the same for every token, whatever its key and certificates |
| TokenServer.MalformedServed | token/token.go:225-310 | behind the PIN, a request whose lengths are not those of a sign or proof request is malformed, and so is any other kind |
| TokenServer.WrongPinLogin | pkcs11/hotbox.c:499-533 | logging in under any other PIN is answered CKR_PIN_INCORRECT and caches nothing, whatever the token |
| TokenServer.WrongPin | token/token.go:257-263 | signing under any other PIN is refused without reaching the key |
| TokenServer.LoginEndToEnd | pkcs11/hotbox.c:499-533 | logging in with the token's PIN succeeds if and only if the leaf can be described within the client's limits in one frame; it then caches exactly that description, and otherwise nothing |
| TokenServer.OneShotEndToEnd | pkcs11/hotbox.c:1198-1243 | in every run, asking for the length and then signing a whole message with a buffer of that size returns the key's signature, of exactly that length, and sends exactly the request |
| TokenServer.MultiPartEndToEnd | pkcs11/hotbox.c:1198-1279 | in every run, asking for the length and then finishing with a buffer of that size returns the key's signature over the concatenated parts, of exactly that length |
| EndToEnd.SessionEndToEnd | pkcs11/hotbox.c:782-1279 | for every describable token, mechanism of its key and message of at most 2^20 - 42 bytes cut into any parts: initialize, open, log in, start, give the parts, ask for the length and fetch is CKR_OK all along and yields the token's signature over the whole message |
| EndToEnd.DescribableIff | token/sign.go:161-182 | logging in is possible exactly for RSA leaves with an exponent above one and EC leaves on three curves, with names and certificates within the client's limits |
| EndToEnd.RsaAttributes | pkcs11/hotbox.c:668-679 | modulus, exponent and length in bits read as the leaf's own numbers, without leading zeros |
| EndToEnd.EcAttributes | pkcs11/hotbox.c:680-687 | the parameters are the DER object identifier of the leaf's curve, computed from its arcs, and the point decodes to the leaf's two coordinates |
| EndToEnd.ObjectAttributes | pkcs11/hotbox.c:641-762 | class, label and every field of each certificate are those of the token, in its order |
| EndToEnd.AttributesIff | pkcs11/hotbox.c:637-720 | which attributes each object has, and that exactly the six private parts of the key are withheld |
| EndToEnd.LittleEndian | pkcs11/hotbox.c:630-630 | a CK_ULONG is the network order backwards |
| EndToEnd.RsaMechanisms | token/sign.go:95-124 | under each of the seven mechanism numbers the key signs the message or the digest, with the padding and hash, that the mechanism's name says |
| EndToEnd.EcMechanisms | token/sign.go:126-151 | the same for the four EC mechanisms; both numbers of the signature are read back, and only the empty message without a digest is refused |
| Pkcs12Kdf.Add | keystore/p12.go:395-402 | in place, the block becomes (block + b + 1) modulo 256^v, most significant byte first, and nothing outside it changes |
| Pkcs12Kdf.Stretch | keystore/p12.go:383-393 | the pattern is repeated to the least multiple of v that holds it, an empty one stays empty |
| Pkcs12Kdf.PaddedIsCopies | keystore/p12.go:383-393 | that is a prefix of whole copies of the pattern, as the standard words it |
| Pkcs12Kdf.AddAll | keystore/p12.go:375-378 | the block loop covers every block of I and no other byte |
| Pkcs12Kdf.Hashes | keystore/p12.go:365-373 | the hash is applied as often as asked, once for counts below one |
| Pkcs12Kdf.Pkcs12KDF | keystore/p12.go:359-381 | for every hash, salt, password, count, purpose and size the key is that of RFC 7292 appendix B.2, and the loop ends |
| Pkcs12Kdf.DerivedIsRecorded | keystore/p12.go:359-402 | that definition agrees with any record of the standard's own steps: strings repeated to whole blocks, each digest hashed as often as asked, and to the number in each block the number of the repeated digest added, and one, modulo 2^(8v); the key is what the digests start with |
| Pkcs12Kdf.DerivedPrefix | keystore/p12.go:359-381 | a shorter key is a prefix of a longer one |
| Keystore.OrderCerts | keystore/keystore.go:110-158 | it ends; the result is a walk from the first certificate of the key that visits no certificate twice and stops only where it must; and each error is returned exactly for its cause |
| Keystore.FindIssuer | keystore/keystore.go:140-149 | the first unused certificate whose subject is the current issuer, or none when there is none |
| Keystore.LinksMeet | keystore/keystore.go:135-156 | at every link subject equals issuer, no certificate repeats, and no self-issued one is passed |
| Keystore.NoRepeats | keystore/keystore.go:135-156 | a chain is no longer than the list it was taken from |
| Keystore.OrderIndependent | keystore/keystore.go:110-158 | with pairwise distinct subjects and one certificate for the key, every permutation of the input gives the same chain |
| Keystore.OrderMatters | keystore/keystore.go:123-129 | with two certificates for the key it does not |
| Keystore.IssuerOrderMatters | keystore/keystore.go:140-149 | with two issuers of the same name it does not either, even where one certificate alone is the key's |
| Keystore.Friendly | keystore/p12.go:213-239 | the name taken is one of the bag's that can be an alias, and none is taken only when none can |
| Keystore.Gather | keystore/p12.go:63-93 | two keys are an error unless an unreadable content comes first; otherwise the key, all certificates in order, and the key's name or else the first certificate's |
| Keystore.FinishAfterOrder | keystore/keystore.go:53-87 | a chain that was ordered passes every later check but the alias |
| Keystore.ParsePkcs12 | keystore/p12.go:63-108 | import succeeds exactly when all is readable, there is one key, everything parses and one certificate is the key's; the entry holds that key, the ordered chain, and as alias the bags' name or else the leaf's own |
| Keystore.AliasFromCert | keystore/pem.go:68-78 | the alias taken from a certificate is its common name when that is valid, and valid in any case |
| Entries.FinishIff | keystore/keystore.go:53-87 | an entry is accepted if and only if its key is RSA or EC, its chain parses, its leaf certifies that key and its name is valid; a leaf for another key, a missing one and one that cannot be read are told apart |
| Entries.StoreGivesUsable | keystore/jks.go:26-132 | whatever the file and passwords, a JKS store that is read gives at least one entry, and every one meets those conditions |
| Entries.ImportedIsUsable | keystore/p12.go:63-108 | so does every entry from PKCS#12 |
| Entries.KeysTaken | keystore/jks.go:54-91 | the entries are those of the key entries of the store, each once and in order |
| Entries.GatheredIff | keystore/p12.go:63-93 | the fold over the bags succeeds if and only if every content can be read and one bag alone is a key; it holds that key, the certificates of all certificate bags in order, and the key's name or else that of the first certificate with one |
| Entries.FriendlyIsFirst | keystore/p12.go:213-239 | a bag's name is the first of its names that can be an alias |
| Jks.XorIff | keystore/jks.go:183-186 | exclusive or is the one byte whose bits are set exactly where those of the two differ |
| Jks.StoredBytes | keystore/jks.go:160-197 | what is decrypted: the salt, each plaintext byte under exclusive or with the chain that starts at the salt and always digests the password and the link before, twenty bytes a link, and the digest of password and plaintext |
| Jks.DecryptEncrypt | keystore/jks.go:160-197 | for every plaintext length, partial last blocks included, decrypting an encryption gives the plaintext |
| Jks.OnlyEncryptionsDecrypt | keystore/jks.go:160-197 | a body that decrypts is the encryption of the result under its salt and that password |
| Jks.XorBlock | keystore/jks.go:183-187 | one block, or what is left of it, is combined with the digest in place |
| Jks.DecryptKey | keystore/jks.go:166-196 | the block loop over the chained digests decrypts every byte to what the inverse of Jks.StoredBytes gives, and the check decides |
| Jks.TakeKey | keystore/jks.go:94-132 | a key entry is read field by field with its chain, decrypted and checked, as specified |
| Jks.EntryLoop | keystore/jks.go:54-91 | the entry loop collects exactly the keys of the entries, in order, skipping certificate entries |
| Jks.ParseJks | keystore/jks.go:26-92 | the whole parser equals its specification on every input |
| Jks.StoreRoundTrip | keystore/jks.go:26-158 | for version 1 or 2 and up to 64 entries within the limits, a printed store gives its keys in order; any byte left over is an error |
| Jks.StorePlaces | keystore/jks.go:39-53 | magic number, version, number of entries, entries |
| Jks.EntryPlaces | keystore/jks.go:54-158 | the order and widths of the fields of a key entry and of a certificate entry |
| Jks.EntryOkIff | keystore/jks.go:94-158 | the limits in numbers |
| Jks.OnlyStoresParse | keystore/jks.go:26-158 | whatever parses is, seal included, the printed form of well-formed entries with those keys |
| Jks.StoreOfSecrets | keystore/jks.go:26-197 | a store of protected keys with certificate entries among them parses to every private key in the clear with its chain |
| Relay.ShapeKept | bunker/bunker.go:241-320 | every step keeps at most 8 clients, at most 8 subscriptions each, recent equal to the last 32 events, and each handler's own bookkeeping |
| Relay.LiveKept | bunker/bunker.go:500-540 | every step keeps that an event published since a subscription was installed has been written to it or is on its way |
| Relay.ReplayedKept | bunker/bunker.go:516-526 | every step keeps that an event in a replay's snapshot has been written or is still to be replayed |
| Relay.AlwaysInv | bunker/bunker.go:241-540 | the invariant holds after every interleaving |
| Relay.NoLostEvent | bunker/bunker.go:280-296 | once handlers come to rest, an open subscription of a connected client has been written every event it wants that was published after it was installed, and every one among the last 32 when its replay began |
| Progress.ConnectIff | bunker/bunker.go:249-258 | a connection is admitted exactly while fewer than eight clients are connected, with nothing subscribed and nothing written |
| Progress.NeverStuck | bunker/bunker.go:263-320 | in every state a handler that is busy has a step of its own it can take |
| Progress.CloserToRest | bunker/bunker.go:500-540 | every such step, in any interleaving, brings its own handler closer to rest and moves no other away from it |
| Progress.EveryEventArrives | bunker/bunker.go:280-296 | from every state any interleaving reaches, finishing what was begun brings all handlers to rest with the same subscriptions, and every event they were owed has been written |
| Relay.AlwaysBounded | bunker/bunker.go:249-302 | after every interleaving recent is exactly the last 32 events in order and no limit is exceeded |
| Relay.EventNumber | bunker/bunker.go:502-505 | appending and truncating yields the last 32 of the longer history |
| Relay.OnlyWanted | bunker/bunker.go:516-540 | after every interleaving, each event on a socket was published and the client had a subscription of that name that wanted it |
| Relay.StaleDelivery | bunker/bunker.go:528-540 | one way to it: reopening a name with other filters between scan and write still delivers the event |
| Relay.WithdrawsIff | bunker/bunker.go:280-303 | a step makes a subscription stop wanting an event if and only if it closes the name, or is a REQ for it that finds room and whose filters do not match |
| Relay.WantedIff | bunker/bunker.go:280-303 | over any steps, an event is still wanted if and only if the last step to touch the name, if any did, was a REQ whose filters match it |
| Relay.DeliveredWantedIff | bunker/bunker.go:528-540 | whatever happens between scan and write, the event is written, and the filters then present want it under exactly that condition |
| Relay.OneLock | bunker/bunker.go:249-302 | each step changes only what its one lock guards: no client's socket or filters under b.mu, neither clients nor recent events under a client's lock, no other client's state |
| Delivery.AlwaysOnce | bunker/bunker.go:500-540 | after every interleaving, one handler at most publishes each event, and what is on its way or still to be replayed has not been delivered |
| Delivery.LiveAtMostOnce | bunker/bunker.go:500-540 | an event, counted by its place in the history, is delivered live at most once under a name |
| Delivery.AtMostTwice | bunker/bunker.go:516-540 | an event is delivered to a subscription at most twice, once live and once by its replay |
| Delivery.CountedAsCarried | bunker/bunker.go:516-540 | every event frame carries the published event it is counted as |
| Bunker.Matches | bunker/bunker.go:550-560 | no filters match everything, otherwise one must match |
| Bunker.SameWanted | bunker/bunker.go:528-536 | the objects' maps and the interleaved steps select the same subscriptions |
| Bunker.RequestTakesIff | bunker/bunker.go:280-295 | a REQ puts its filters in force exactly when there is room or they were in force already; with eight subscriptions a repeated name keeps its old filters, and the refusal changes nothing and is answered with CLOSED |
| Bunker.Client.Select | bunker/bunker.go:529-536 | the scan lists each wanting subscription once |
| Bunker.Client.Send | bunker/bunker.go:528-540 | the event is written once to each wanting subscription and to no other |
| Bunker.Room.Admit | bunker/bunker.go:249-258 | a client is admitted exactly while there are fewer than 8 |
| Bunker.Room.Leave | bunker/bunker.go:259-262 | a client that leaves is removed and no other |
| Bunker.Room.Remember | bunker/bunker.go:500-510 | recent stays the last 32 events and the clients listed are those connected |
| Bunker.Room.Publish | bunker/bunker.go:500-514 | undisturbed, every connected client is written the event once for each subscription that wants it |
| Bunker.Room.Replay | bunker/bunker.go:516-526 | the wanted events of the snapshot in order, then EOSE |
| Bunker.Room.Request | bunker/bunker.go:280-296 | a whole REQ: installed and replayed, or refused with CLOSED and unchanged |
| Bunker.UndisturbedRequest | bunker/bunker.go:280-296 | the interleaved steps of a REQ that nothing interrupts do exactly what the object's method does |
| Shutdown.InvFrom | bunker/bunker.go:180-214 | the lock, once and result invariants survive every interleaving |
| Shutdown.CallbackUnderLock | bunker/bunker.go:489-498 | the key callback runs only under the lock, with the bunker open, for one handler at a time, and before any Close has finished |
| Shutdown.NeverAfterClose | bunker/bunker.go:193-209 | once a Close has cleared the key or returned, no callback is running and none ever runs again |
| Shutdown.ExitedOnce | bunker/bunker.go:193-209 | the exit channel is closed once however many callers there are, and by then the key is gone |
| Shutdown.ResultsArrive | bunker/bunker.go:180-214 | a server can always send its result, and Wait gets each of the two exactly once |
| Shutdown.CloseMovesOn | bunker/bunker.go:193-209 | a Close under way is never stuck |
| Shutdown.LookCallsIff | bunker/bunker.go:489-498 | useKey calls back exactly when the bunker is open as it looks, under the lock |
| Shutdown.CloserToEnd | bunker/bunker.go:180-214 | every step that goes on with what was begun brings the end closer, whatever the order |
| Shutdown.EverythingEnds | bunker/bunker.go:180-214 | from every state with a Close under way all callers of Close can return, both servers report and Wait have both results: there is no deadlock between them |
| Records.RoomSuffices | profile/android.go:108-116 | for every valid key the computed length is exact and below the cap |
| Records.ValidIff | profile/android.go:52-89 | what a valid key is, in numbers |
| Records.AndroidPlaces | profile/android.go:108-131 | where each field of a sealed chain stands |
| Records.EncodeAndroid | profile/android.go:108-131 | the buffer is the encoding, or an error exactly past the cap |
| Records.AppendDers | profile/android.go:125-129 | the loop appends each certificate behind its length |
| Records.DecodeAndroid | profile/android.go:133-191 | decoding equals its specification on every input |
| Records.AndroidRoundTrip | profile/android.go:108-191 | every valid record decodes to the same PIN, alias and chain |
| Records.OnlyAndroidsDecode | profile/android.go:133-191 | every accepted record is valid and is the encoding of what it decodes to |
| Records.EncodeBunker | profile/profile.go:320-328 | the array filled field by field holds the record |
| Records.BunkerRoundTrip | profile/profile.go:285-328 | a record reads back exactly when its secret and ports would have been accepted at creation |
| Records.BunkerReadsIff | profile/profile.go:285-305 | which bytes are read as a record: 53, the first a one, a secret and a token not all zero, two ports that are neither zero nor the same |
| Records.BunkerPlaces | profile/profile.go:320-328 | where each field of the record stands, the ports most significant byte first |
| Records.OnlyBunkerRecordsParse | profile/profile.go:285-305 | every accepted record is the encoding of what it parses to |
| Records.Cat | profile/profile.go:285-318 | under any chunking the whole entry arrives exactly when it fits the cap |
| Records.ReadBunker | profile/profile.go:285-305 | reading depends on the joined chunks alone |
| Records.ReadAndroid | profile/profile.go:330-341 | reading depends on the joined chunks alone, whatever the chunking |
| DotEnv.ReadDotEnv | sign.go:127-144 | the line loop computes the specified values and stops at a line the scanner cannot hold |
| DotEnv.PrintBlock | main.go:446-457 | the builder's text is the specified block |
| DotEnv.LinePut | main.go:451-454 | a printed line assigns exactly its value, quotes, equals signs and outer spaces included |
| DotEnv.BracketPut | main.go:448-450 | a heading assigns to none of the three keys, whatever the name |
| DotEnv.HandPut | sign.go:127-142 | a line written by hand assigns its value to its name, with white space around any part, the word export before it, either kind of quotes or none, and a carriage return behind it |
| DotEnv.NothingPut | sign.go:128-134 | blank lines, comments and lines without an equals sign assign nothing |
| DotEnv.SpacesAreUnicode | sign.go:128-128 | the bytes trimmed are exactly the UTF-8 encodings of Unicode's white space |
| DotEnv.PrintedRoundTrip | sign.go:127-144 | reading several printed blocks gives for each key the last value printed for it |
| DotEnv.ReadsBackIffFits | sign.go:127-144 | a block reads back if and only if every printed field has no line feed and fits the scanner |
| DotEnv.ValuesOneLine | sign.go:127-144 | no value that is read holds a line feed |
| Versions.CompareVersions | sign.go:180-195 | the loop returns the wrapped difference where the versions part, or the order of their texts; Versions.OrderOfNumbers says which that is |
| Versions.OrderOfNumbers | sign.go:180-195 | for versions of any machine integers and any lengths, printed and joined with dots, the first place in which they differ, missing numbers counting as zero, decides the order by its difference |
| Versions.JoinSplit | sign.go:181-181 | the components hold no dot and are the text again when joined with dots |
| Versions.SplitJoin | sign.go:181-181 | no other components are |
| Versions.LexIs | sign.go:194-194 | the tie: the text that ends first, or has the smaller character where they first differ, comes first |
| Versions.AtoiOfDigits | sign.go:184-189 | a component of digits, leading zeros and a sign allowed, counts as its value by place, held to the machine's range |
| Versions.AtoiOfJunk | sign.go:184-189 | a component with anything else in it, an empty one and a lone sign count as zero |
| Versions.OrderTrans | sign.go:180-195 | the order meant is transitive, for differing component counts too |
| Versions.OrderFlips | sign.go:180-195 | it is antisymmetric |
| Versions.OrderZero | sign.go:180-195 | it is zero for equal strings only |
| Versions.ComparesIffFits | sign.go:180-195 | the code's result has the sign of that order if and only if the first two components that differ are no more than a machine integer apart, and is zero for equal strings only |
| Versions.FitsIff | sign.go:180-195 | that condition on the components is exactly that the difference fits |
| Versions.UnsignedCompareRight | sign.go:180-195 | versions without minus signs always compare rightly |
| Versions.ComparedIsOrder | sign.go:180-195 | where differences fit, the code's comparison is a strict total order |
| Versions.FarApartComparesWrong | sign.go:180-195 | for any two integers too far apart there are versions that compare the wrong way |
| Versions.AtoiText | sign.go:184-189 | every machine integer is the value of its decimal text |
| Versions.NewestUsable | sign.go:168-176 | the scan from the end finds the greatest version that is usable, or none when none is |

## Left out

- Versions.NewestUsable: assumes the sorted list slices.SortFunc returns and that differences fit; the library sort itself is not modelled.
- Progress.EveryEventArrives: handlers can come to rest and are bounded in how long that takes; that writes succeed and that the scheduler lets a handler run are assumed.
- Bunker.Room.Publish: one handler alone; interference between handlers is in Relay, on values and not on objects, because a lock's critical sections are its steps.
- Shutdown.CallbackUnderLock: on values, one step for each point where a goroutine can block, and not on an object with a mutex, whose interleavings no sequential method has.
- Shutdown.CloseMovesOn: the two-second limit of server.Shutdown is not modelled, nor are other holders of the lock, which never wait while they hold it.
- TokenServer.PredictedLength: that an RSA signature is as long as its modulus and that digests are not empty is assumed of the library.
- InfoCodec.InfoBody: certificate parsing and the choice of fields from the leaf are parameters.
- Hotbox.Module.C_Login: bytes left in the fixed alias, PIN and handle arrays beyond their lengths are not modelled, only the lengths' worth that is read.
- Allocation failure: an outcome of an exchange and of growing a sign buffer; the other allocations of the module are assumed to succeed.
- Concurrent C calls: every call holds one mutex, so runs are sequences of calls.
- C_GetInfo and the slot, token, session and mechanism queries: they read state and fill caller structures by one branch each.
- OK and NOTICE frames, which a handler writes between the steps that are modelled.
- Interrupted system calls, timeouts, peer credentials, socket creation and the exclusivity of its path.
- The connection limit of the token's accept loop, Token.Close, the NIP-C1 time window and message (an outcome parameter), and logging.
- PBES2, PBKDF2, AES, the PKCS#12 ASN.1 layers and MAC check, and PEM blocks: they feed the modelled parts.
- UTF-16 encoding of passwords: a key-store password is its encoded bytes.
- The vault container, key files and keychain.
- The bunker's request handling apart from its use of the key: NIP-44 sessions, JSON, approval, which the relay treats as one step that yields an event.
- File permissions and a missing file in readDotEnv, and the environment variables that override it.
- Command-line parsing, prompts, APK tools.
