# An encrypted file transfer, modelled and proved

A C++ client registers with a Python server, or resumes an earlier registration from `me.info`. The two agree on an
AES key wrapped with RSA, and the client then uploads one file: it sends the ciphertext, compares the server's
checksum with its own, and confirms or sends again, at most three times. The server gives each connection a handler
thread. All handlers share two tables and one directory.

The project has four layers, and the theorems compose them.

- **Wire formats.** `Bytes`, `Cipher` and `Wire` define the frames and payload layouts as each end builds and reads
  them, and CBC with padding over any block permutation. `ClientCodec` and `MeInfo` contain the client's array and
  string code, proved equal to these definitions.
- **Endpoints.** `Handler` and `Client` are the two endpoints as step machines: a step is one receive, one locked
  statement, one send, one save or one file read, and what it leaves open is an explicit choice of the environment.
  `ClientDecisions` says what each of the client's choices depends on. `ServerCode` and `ClientCode` are the endpoints' classes with their loops. Their methods are proved to follow the
  steps: `Valid()` says that the fields, the socket, the tables and the disk are where some run of the machine leads
  from where the object started.
- **Systems.** `ServerWorld` is any number of handlers, interleaved at every step, under peers that send arbitrary
  bytes; `Conversations` ties the history of such a run to the responses each handler sent and the headers it read,
  and `ServerTheorems`, `KeysTable` and `PhaseOrder` state what holds in every run. `Session` joins one client and one handler by two byte streams; the shared state is an argument
  of every step and may change arbitrarily between steps. `World` runs any number of such sessions over one shared
  state, and is proved to be a special case of `ServerWorld`.
- **Theorems about runs.** `Protocol` (frame alignment, deadlock, termination, key agreement), `Messages` (the bytes
  refine queues of whole messages), `Accounting` (retries), `EndToEnd` (the file arrives), `SaveOutcome` (when a client
  that returned true had its file saved), `IdentityAcross` (a later run meets its own row). `ClientMoves` and `HandlerMoves` hold the
  invariant of a session, one position at a time.

Assumed of the libraries, in `Cipher.Lawful`: the block cipher is a permutation for every key; a key wrapped for the
public half of a key pair is 128 bytes and unwraps to itself with the private half; public keys have 160 bytes.
`Cipher.LawfulSuiteExists` shows that this can be met. The checksum is an arbitrary function of the bytes.

Where the code differs from what its documentation or layout suggests, the model follows the code:

- The server acknowledges FILE_CRC_SUCCESS before it saves (`Maman15Server/client_handler.py:194-205`), so a client that
  returns true knows only that the server holds a plaintext with the right checksum (`Protocol.SuccessIsConfirmed`).
  That its file is saved is false in general: `SaveOutcome.SuccessWithoutSave` is a run in which only the one save
  fails, and `SaveOutcome.SavedIffAccepted` says for every run that the file was saved if and only if the disk accepted
  the one save step that every such session makes.
- After FILE_CRC_SUCCESS the client reads three bytes of the seven-byte acknowledgement
  (`Maman15Client/Maman15Client/MainClient.cpp:150`); the other four are never read (`Protocol.SuccessLeavesFourBytes`).
- The uint32 sizes are exact only up to 4294966991 bytes of plaintext (`Wire.SizesExact`), the deserialiser stays
  in its buffer only for sizes 3, 4 and at least 7 (`Wire.DeserialiserInBounds`), the server recovers a file name only if
  it has at most 255 bytes and no trailing zero byte (`ByteStrings.NameFieldRoundTrip`). Each is an if-and-only-if.
- `me.info` is read into a buffer of exactly its size and turned into a string by its address alone
  (`Maman15Client/Maman15Client/ClientInitializer.cpp:157-169`), so the string goes on through the bytes beyond the
  buffer up to the first zero byte. Those bytes are an argument here. `MeInfo.InfoRoundTrip` gives the exact condition
  under which a printed file comes back, `MeInfo.RejectedByLine` and `MeInfo.LongerKey` are two ways in which it does
  not; when a zero byte follows, names without newline and zero byte and non-empty keys come back
  (`MeInfo.TerminatedRoundTrip`).

## Model

| member | source | states |
|---|---|---|
| Protocol.FrameAlignment | Maman15Client/Maman15Client/MainClient.cpp:44-215 | In every reachable state, for every chunking of payload reads and whatever other sessions do to the shared state, each end has received a prefix of exactly what the other sent; every header read starts on a frame boundary with at most one request outstanding; every client read starts on a response boundary |
| Protocol.SuccessLeavesFourBytes | Maman15Client/Maman15Client/MainClient.cpp:128-165 | When both ends finish with success, all messages arrived and exactly the four size bytes of the acknowledgement are unread |
| Messages.MoveIsMail | Maman15Client/Maman15Client/MainClient.cpp:44-215 | Every move of the byte-level session is the same move of a session that exchanges whole messages through two queues, with the same endpoints and shared state, except that a part of a payload moves nothing |
| Messages.RunIsMail | Maman15Server/client_handler.py:37-213 | Every byte-level run is a run on whole messages with no more moves |
| Protocol.NoDeadlock | Maman15Server/client_handler.py:37-73 | In every reachable state some move is possible if and only if not both ends have finished |
| Protocol.MoveDescends | Maman15Server/client_handler.py:42-69 | Every move lowers (client position with attempts left, bytes outstanding, handler position), although the server's loop has no bound of its own |
| Protocol.EveryRunEnds | Maman15Client/Maman15Client/MainClient.cpp:171-215 | Under every scheduler that does not idle, every run ends with the client returned and the handler out of its loop |
| Protocol.SuccessIsConfirmed | Maman15Client/Maman15Client/MainClient.cpp:128-157 | The client returns true only if the handler received its FILE_CRC_SUCCESS and both checksums agree; a pending save then holds the bytes the client encrypted, under its file name |
| SaveOutcome.SavedIffAccepted | Maman15Server/client_handler.py:191-207 | In any run of any number of sessions, a session that has ended and whose client returned true made exactly one save step; the handler saved, and exactly the bytes the client encrypted under its file name, if and only if the disk accepted that step, and then also ended with success; otherwise it saved nothing |
| SaveOutcome.UnsavedSuccess | Maman15Server/client_handler.py:194-200 | From every starting point there is a run in which nothing fails but the one save: the client returns true, the handler ends without success, the disk is as it was and no row became verified |
| SaveOutcome.SuccessWithoutSave | Maman15Server/client_handler.py:194-200 | One such run in full: an empty server, client "a", the one-byte file "a" |
| Protocol.KeyAgreement | Maman15Client/Maman15Client/EncryptionHandler.cpp:12-70 | In every reachable state a client that holds a key holds its own handler's key; a handler in the file loop has sent that key wrapped for this client, on the fresh and on the resumed path alike |
| PhaseOrder.KeyBeforeFile | Maman15Server/client_handler.py:75-152 | Against arbitrary peers and in every interleaving, a handler in the file loop has sent its own AES key, wrapped for the public key it holds, on its connection; and none registers, stores keys or handles an upload without having read a request of that kind there |
| EndToEnd.FileArrives | Maman15Server/client_handler.py:145-207 | With an unchanged non-empty file and no faults, no run leaves the way to success; when both ends have finished, the client returned true on its first attempt, the file below the root directory under the client's name (or at an absolute name) equals the client's bytes, and every row of this client and name is verified |
| EndToEnd.RunCompletes | Maman15Client/Maman15Client/FileHandler.cpp:12-70 | Every such run can be carried on, keeping its conditions, until both ends have finished |
| Accounting.RetryAccounting | Maman15Client/Maman15Client/MainClient.cpp:171-203 | The exact list of request codes of every finished run without faults: j refused rounds, then file and SUCCESS with j + 1 turns of the handler's loop, or FINISHED with j + 1 turns, j at most 3 |
| ClientMoves.CrcVerdict | Maman15Client/Maman15Client/MainClient.cpp:96-147 | While the handler lives the client confirms if and only if the checksum of its second read of the file is that of the bytes it encrypted after the first; once the handler has given up, if and only if its own checksum is the failure value 0 |
| ClientMoves.ClientMoveKeeps | Maman15Client/Maman15Client/MainClient.cpp:44-215 | Every step of the client keeps the invariant of a session: alignment of both streams, and the joint position of the two ends |
| HandlerMoves.HandlerMoveKeeps | Maman15Server/client_handler.py:37-213 | Every step of the handler keeps that invariant, in any shared state |
| World.RunSimulates | Maman15Server/client_handler.py:13-35 | Every run of many composed sessions is a run of the server under arbitrary peers |
| World.VerifiedMatchesClient | Maman15Client/Maman15Client/MainClient.cpp:128-147 | With these clients, a row made verified belongs to a session whose handler sent the checksum in a response, read a confirmation and saved, in this order, exactly what its client had encrypted, and whose client computed the checksum of those bytes |
| ServerTheorems.VerifiedMeansConfirmed | Maman15Server/client_handler.py:179-207 | Against arbitrary peers and in every interleaving: a row becomes verified only if some handler with that client id sent the FILE_CRC response with the checksum of a plaintext for that name, later read a FILE_CRC_SUCCESS header (a different one for every confirmation) and later saved that plaintext |
| Conversations.StepConversed | Maman15Server/client_handler.py:179-196 | Each step keeps the history true to the connection: every checksum in it was sent in a response with that id and name, and every confirmation has a FILE_CRC_SUCCESS header of its own |
| Conversations.ToldIsReadable | Maman15Server/client_handler.py:185-189 | The response behind a checksum in the history is a FILE_CRC response from which a client takes exactly that checksum |
| ServerTheorems.DiskHistory | Maman15Server/file_handler.py:15-28 | In every reachable state a path holds what it held initially, or the plaintext of the last save to it by any handler, which was sent its checksum and confirmed over that handler's connection |
| ServerWorld.DiskEffect | Maman15Server/client_handler.py:198-207 | A step changes the disk only by a successful save of the confirmed plaintext to its path, and logs it; no verdict other than SUCCESS and no failed save changes it |
| ServerTheorems.ReplayIsLastSave | Maman15Server/file_handler.py:22-23 | Replaying a history of saves leaves at each path the plaintext of the last save there, or what was there |
| ServerTheorems.NameHistory | Maman15Server/client_handler.py:164 | In every reachable state what the disk holds for a name is what it held initially, or the plaintext of the last save under that very name, whatever was saved under other names since |
| ServerTheorems.OtherNamesKept | Maman15Server/client_handler.py:198-200 | A step that does not save under a name leaves what the disk holds for that name alone |
| Tables.PathShape | Maman15Server/client_handler.py:164 | A relative name's path is the root directory, a slash and exactly the name; an absolute name is its own path |
| Tables.PathInjective | Maman15Server/client_handler.py:164 | Two names have the same path if and only if they are the same name |
| ServerWorld.RunInvariants | Maman15Server/database.py:61-131 | Over every run the tables and the disk are functions of the history, and every verified row is earned |
| ServerTheorems.ClientsConserved | Maman15Server/database.py:71-89 | The clients table is its initial content followed by the accepted registrations in order; ids and names stay unique; the row count is the initial one plus the successful inserts |
| ServerTheorems.AcceptedDiffer | Maman15Server/database.py:71-89 | No two handlers of a run answer REGISTRATION_SUCCESS with the same id or for the same name, however they interleave |
| ServerTheorems.AcceptedHasRow | Maman15Server/client_handler.py:116-120 | A handler that answered REGISTRATION_SUCCESS answered with its id, and the run inserted a new row with that id and name |
| ServerTheorems.FailedMeansRefused | Maman15Server/database.py:75-86 | A handler that answered at all answered REGISTRATION_FAILED if and only if its insert, at the moment it was made, failed or found the id or name taken |
| ServerTheorems.RejectedAddsNoRow | Maman15Server/client_handler.py:110-115 | A handler that answered REGISTRATION_FAILED inserted no row in the whole run, and has stopped |
| ServerTheorems.FilesConserved | Maman15Server/database.py:103-131 | The files table keeps name, path and client of every row and grows by exactly the successful inserts; verified rows stay verified |
| ServerWorld.RunGrows | Maman15Server/database.py:61-131 | No run removes a row, changes a row's identity, takes a verified flag back or rewrites history |
| ServerWorld.StepJustified | Maman15Server/client_handler.py:179-207 | Each step keeps the order checksum, confirmation, save within every handler's history |
| IdentityAcross.IdentityAcrossRuns | Maman15Client/Maman15Client/ClientInitializer.cpp:187-218 | After a registration, whatever became of that run, a later run that loads the printed me.info sends the stored id, and its key update rewrites the keys of exactly the row made by that registration, and no other row |
| IdentityAcross.RegisteredRow | Maman15Server/client_handler.py:97-120 | A client that read REGISTRATION_SUCCESS holds, ever after, the id of a row of the clients table that carries its name |
| IdentityAcross.KeyUpdateTouchesOneRow | Maman15Server/database.py:91-101 | The key update sets both keys on the rows of this id and leaves every other row, the files, the disk and the history alone; for an unknown id it changes nothing |
| KeysTable.StepRows | Maman15Server/database.py:61-101 | Row by row: a step changes a row's keys only as a key update of its id, to both keys of that handler, and its last-seen field only as such an update of its id; id and name never; a new row has neither |
| KeysTable.KeysHeld | Maman15Server/client_handler.py:134-142 | Over every interleaving: a handler that answered AES_KEY made a key update with the keys it still holds, and every row of its id that was there holds exactly these keys until the next key update for that id |
| KeysTable.KeysStay | Maman15Server/database.py:91-101 | A row keeps both keys, through any number of last-seen updates and other steps, as long as no key update for its id is made |
| Handler.StepDescends | Maman15Server/client_handler.py:37-73 | On arbitrary input every step of a handler consumes bytes or lowers its rank |
| Client.StepDescends | Maman15Client/Maman15Client/MainClient.cpp:171-215 | Every step of the client leaves fewer attempts or is further on in the same one, whatever the server sends |
| ClientCode.BoundedAgainstAnyServer | Maman15Client/Maman15Client/MainClient.cpp:171-215 | Whatever the server sends, at most three file frames and one FINISHED go out, and true is returned only right after a SUCCESS verdict |
| ClientDecisions.FileDecides | Maman15Client/Maman15Client/FileHandler.cpp:17-28 | An attempt sends a file frame if and only if it has a key and the read found a file that is not empty; otherwise it sends nothing and goes on to the next attempt |
| ClientDecisions.NothingIsRefused | Maman15Client/Maman15Client/MainClient.cpp:171-215 | A session in which every read finds no file or an empty one sends no file frame, ends with false, and sent exactly one FINISHED if it had come to have a key and none otherwise |
| ClientDecisions.NothingAgainstAnyServer | Maman15Client/Maman15Client/FileHandler.cpp:17-21 | The same whatever bytes a server sends |
| ClientDecisions.NothingAccounted | Maman15Client/Maman15Client/MainClient.cpp:171-215 | Without faults such a session is its opening and one FINISHED, answered in the handler's first turn |
| ClientDecisions.ChecksumDecides | Maman15Client/Maman15Client/FileHandler.cpp:143-160 | The checksum is the failure value 0 for a file that is not there or empty, and that of its bytes otherwise |
| ClientDecisions.RegistrationDecides | Maman15Client/Maman15Client/ClientInitializer.cpp:93-131 | The client goes on to its key if and only if a whole acceptance was there and me.info could be written; otherwise it ends with false |
| ClientDecisions.NameDecides | Maman15Client/Maman15Client/main.cpp:16-19 | The key request goes out if and only if the user name is not empty |
| ClientDecisions.KeyRequestShape | Maman15Client/Maman15Client/EncryptionHandler.cpp:17-23 | The name, zeroes up to 255 bytes, the public key |
| ClientDecisions.VerdictRequestShape | Maman15Client/Maman15Client/MainClient.cpp:136-145 | The id, the first 255 bytes of the file name, zeroes up to 271 bytes |
| ClientCode.MainClient.Run | Maman15Client/Maman15Client/MainClient.cpp:6-23 | A whole run, registration or resume included, follows the steps of the client to the end and returns what they end with |
| ClientCode.MainClient.RunClient | Maman15Client/Maman15Client/MainClient.cpp:171-215 | The retry loop follows the steps of the client from the first attempt to its result; if no read finds a file that is not empty, it returns false and one FINISHED is all it sends |
| ClientCode.MainClient.SendFileToServer | Maman15Client/Maman15Client/MainClient.cpp:44-91 | One attempt follows the steps of the client: it ends in success or at the next attempt; if it finds no file or an empty one it neither sends nor receives |
| ClientCode.MainClient.SendEncryptedFile | Maman15Client/Maman15Client/FileHandler.cpp:12-70 | Sends the file frame if and only if there is a key and the file is not empty, and otherwise nothing |
| ClientCode.MainClient.GetServerCalculatedCrc | Maman15Client/Maman15Client/MainClient.cpp:96-122 | Consumes one checksum response and returns its checksum, or 0 for another response |
| ClientCode.MainClient.CompareCrc | Maman15Client/Maman15Client/FileHandler.cpp:143-160 | Reads the file again, and sends SUCCESS exactly when its checksum is the one in the server's response, RESENDING otherwise |
| ClientCode.MainClient.ReceiveSharedSecret | Maman15Client/Maman15Client/EncryptionHandler.cpp:32-70 | Succeeds if and only if a whole AES key response is there whose key unwraps to 16 bytes, and then holds that key |
| ClientCode.MainClient.RegisterClient | Maman15Client/Maman15Client/RegistrationHandler.cpp:11-53 | Follows the registration steps and takes over the id of the response |
| ServerCode.ClientHandler.HandleClient | Maman15Server/client_handler.py:37-73 | The whole life of a handler follows the steps of the machine to their end, from any stream; its loop ends because every further round consumed a header |
| ServerCode.ClientHandler.HandleFirstMessage | Maman15Server/client_handler.py:75-95 | Follows the steps into the file loop, or to a stopped handler |
| ServerCode.ClientHandler.RegisterClient | Maman15Server/client_handler.py:97-120 | Follows the registration steps; true exactly when the handler then waits for the key request |
| ServerCode.ClientHandler.SendAesKeyToClient | Maman15Server/client_handler.py:122-143 | Follows the key steps; true exactly when the file loop is entered |
| ServerCode.ClientHandler.ReceiveEncryptedFile | Maman15Server/client_handler.py:145-177 | Follows the upload steps; the returned code, or the exception, is what the loop of the machine goes on with |
| ServerCode.ClientHandler.HandleFileFromClient | Maman15Server/client_handler.py:179-207 | Follows the verdict steps: acknowledgement first, then save, then the verified flag |
| ServerCode.ClientHandler.SaveVerified | Maman15Server/client_handler.py:198-205 | A successful save leaves the plaintext at its path; the flag is set only after it |
| ServerCode.HandlerObeysWorld | Maman15Server/client_handler.py:13-35 | Wherever the handler's code leads, tables, disk and history satisfy the theorems of the server under arbitrary peers |
| ServerCode.IncomingRequest.ReceivePayload | Maman15Server/protocol.py:94-102 | However the socket splits the bytes, the payload is exactly the declared number of bytes, or empty at an early end of stream |
| ServerCode.EverySplit | Maman15Server/protocol.py:94-102 | In the handler's steps every split of a payload into receives of any positive sizes is possible, and all of them lead to the same end |
| Session.AnyPart | Maman15Server/protocol.py:98 | In a session the handler can take whatever part of a payload a read returns, down to a single byte |
| Session.AnyRead | Maman15Client/Maman15Client/FileHandler.cpp:98-138 | Whatever a read of the local file finds, at each of the separate reads, the client goes on |
| ServerCode.ReceiveRequests | Maman15Server/protocol.py:73-102 | Reading headers and payloads over and over, however the socket splits the payloads, gives exactly the requests of a stream of whole frames, says when the stream is not one, and never gives a partial request |
| ServerCode.ReceiveStream | Maman15Client/Maman15Client/ClientRequest.cpp:54-71 | For every list of requests, reading the concatenation of its frames with any chunking returns that list |
| ServerCode.IncomingRequest.constructor | Maman15Server/protocol.py:73-88 | The header fields, or the initial values when there are not 23 bytes |
| ServerCode.ServerDatabase.RegisterNewClient | Maman15Server/database.py:71-89 | One new row with the UUID and the name, no keys and a last-seen time, every other row as it was; or no change and no id |
| ServerCode.ServerDatabase.AddClientKey | Maman15Server/database.py:91-101 | The rows of the id end with both keys and the new last-seen time, every other row as it was |
| ServerCode.ServerDatabase.UpdateLastSeen | Maman15Server/database.py:61-69 | Sets last-seen on the rows of the id and leaves their other fields, the keys among them, and all other rows alone |
| ServerCode.ServerDatabase.RegisterNewFile | Maman15Server/database.py:103-119 | One new unverified row, and of the clients table only last-seen fields change; or no change |
| ServerCode.ServerDatabase.SetFileVerified | Maman15Server/database.py:121-131 | Every row of this client and name becomes verified, no other row changes, and of the clients table only last-seen fields change |
| ServerCode.FileStore.SaveFile | Maman15Server/file_handler.py:15-28 | The path holds the data, or nothing changed |
| Cipher.CipherRoundTrip | Maman15Client/Maman15Client/AESWrapper.cpp:37-50 | For every byte string and key the server's decryption gives p if and only if the input is the client's encryption of p; both ends' encryptions are equal; the ciphertext has 16 * (n / 16 + 1) bytes |
| Cipher.ChainedOnly | Maman15Client/Maman15Client/AESWrapper.cpp:37-50 | A string is the client's ciphertext of p if and only if it obeys the law of the chain: at every block, each bit of the block cipher's input is set exactly where the bits of the padded plaintext block and of the ciphertext block before (zero at first) differ |
| Cipher.BothEndsChain | Maman15Server/crypto_handler.py:25-29 | The ciphertexts of both ends obey that law |
| Cipher.CbcChains | Maman15Server/crypto_handler.py:28-29 | Encryption obeys the law for every key and initial vector |
| Cipher.XorBlockBits | Maman15Client/Maman15Client/AESWrapper.cpp:42 | Each bit of the exclusive or is set exactly where the two bits differ |
| Cipher.UnpadInvertsPad | Maman15Server/crypto_handler.py:32-36 | Unpadding yields p exactly on the padding of p and fails on everything else |
| Cipher.CbcDecryptsEncrypted | Maman15Server/crypto_handler.py:25-36 | Chained decryption undoes chained encryption, for every key and initial vector |
| Cipher.CbcEncryptsDecrypted | Maman15Server/crypto_handler.py:25-36 | And the other way round, on whole blocks |
| Cipher.FilterIsPadThenChain | Maman15Client/Maman15Client/AESWrapper.cpp:44-47 | The client's streaming filter equals padding first and chaining after, as the server does it |
| MeInfo.InfoRoundTrip | Maman15Client/Maman15Client/ClientInitializer.cpp:105-213 | Printing me.info and loading it gives back id and key if and only if the name has no newline and no zero byte and the bytes beyond the buffer, up to their first zero, add no line and no byte to the key (and stand in for the line of an empty key) |
| MeInfo.TerminatedRoundTrip | Maman15Client/Maman15Client/ClientInitializer.cpp:105-213 | When a zero byte follows the buffer: if and only if the name has no newline and no zero byte and the key is not empty |
| MeInfo.RejectedByLine | Maman15Client/Maman15Client/ClientInitializer.cpp:157-195 | A further line beyond the buffer makes the client reject the very file it printed |
| MeInfo.LongerKey | Maman15Client/Maman15Client/ClientInitializer.cpp:157-213 | Two letters beyond the buffer give the client a different key and no error |
| MeInfo.LoadedId | Maman15Client/Maman15Client/ClientInitializer.cpp:203-211 | Whatever lies beyond the buffer, a printed file gives its id back or is rejected |
| MeInfo.LoadedName | Maman15Client/Maman15Client/ClientInitializer.cpp:197-201 | A file is taken over only if its first line is exactly the user's name |
| MeInfo.ForeignFile | Maman15Client/Maman15Client/ClientInitializer.cpp:197-201 | The file printed for one user is rejected for every other, whatever lies beyond the buffer |
| MeInfo.ExtraDigits | Maman15Client/Maman15Client/Base64Wrapper.cpp:20-31 | Digits behind an encoded string leave the decoded bytes alone if and only if they complete no further byte |
| MeInfo.HexRoundTrip | Maman15Client/Maman15Client/Base64Wrapper.cpp:33-45 | unhex undoes hex on every byte string |
| MeInfo.HexShape | Maman15Client/Maman15Client/Base64Wrapper.cpp:33-38 | Every byte is printed as two upper-case digits, the higher half first |
| MeInfo.HexValueShape | Maman15Client/Maman15Client/Base64Wrapper.cpp:40-45 | The sixteen digits are read in either case, and no other character is read as one |
| MeInfo.UnhexReads | Maman15Client/Maman15Client/Base64Wrapper.cpp:40-45 | unhex succeeds if and only if there is an even number of digits, in either case, and nothing else; two of them make a byte |
| MeInfo.Base64RoundTrip | Maman15Client/Maman15Client/Base64Wrapper.cpp:6-31 | decode undoes encode on every byte string, and only the empty string encodes to nothing |
| MeInfo.Base64Groups | Maman15Client/Maman15Client/Base64Wrapper.cpp:6-16 | Three bytes are printed as the four digits to the base 64 of their number, before the rest (section 4 of RFC 4648) |
| MeInfo.Base64End | Maman15Client/Maman15Client/Base64Wrapper.cpp:6-16 | One or two last bytes are printed as the first two or three digits of their number, and padding |
| MeInfo.Base64Length | Maman15Client/Maman15Client/Base64Wrapper.cpp:6-16 | n bytes are printed as 4 * ((n + 2) / 3) characters |
| MeInfo.SextetValueShape | Maman15Client/Maman15Client/Base64Wrapper.cpp:20-31 | A character is decoded as a digit only if it is the one printed for that digit; the padding is not |
| MeInfo.SextetShape | Maman15Client/Maman15Client/Base64Wrapper.cpp:6-16 | The alphabet is A to Z, a to z, 0 to 9, + and /, in this order |
| MeInfo.ClientInitializer.ConnectionInfo | Maman15Client/Maman15Client/ClientInitializer.cpp:105-112 | The joined buffer is the printed file |
| MeInfo.ClientInitializer.ReadInformationFile | Maman15Client/Maman15Client/ClientInitializer.cpp:138-182 | The lines of the file and of what lies beyond its buffer, up to the first zero byte, without an empty last one |
| MeInfo.ClientInitializer.GetClientConnectionInfo | Maman15Client/Maman15Client/ClientInitializer.cpp:187-218 | Takes id and key over exactly when file and bytes beyond load, which needs the user's name as first line, and leaves the object alone otherwise; the file printed for another user is refused |
| Wire.ReadRequestsOfStream | Maman15Client/Maman15Client/ClientRequest.cpp:54-71 | Every list of requests is recovered from the concatenation of its frames |
| Wire.StreamOfReadRequests | Maman15Server/protocol.py:73-102 | Reading succeeds only on concatenated frames, and writing what was read gives the same bytes |
| Wire.FrameSplits | Maman15Server/protocol.py:80-83 | The header of a frame gives back id, version, code and size, and the payload starts right behind it |
| Wire.FrameShape | Maman15Client/Maman15Client/ClientRequest.cpp:54-71 | Where id, version, code, size and payload are in a frame, with the numbers in little-endian order |
| Wire.PackFields | Maman15Server/protocol.py:61-67 | Where version, code, size and the first 1017 payload bytes are in a packed response |
| Wire.ParsePacked | Maman15Client/Maman15Client/ServerResponse.cpp:19-51 | Deserialising pack gives back version, code and full declared size with exactly the first min(length, 1017) payload bytes |
| Wire.ParseHeaderOnly | Maman15Client/Maman15Client/MainClient.cpp:149-153 | Three bytes of a response give its code and nothing else |
| Wire.DeserialiserInBounds | Maman15Client/Maman15Client/ServerResponse.cpp:25-50 | Whatever size the server declares, the 32-bit arithmetic keeps the reads inside the buffer if and only if its size is 3, 4 or at least 7 |
| Wire.FilePayloadRoundTrip | Maman15Server/client_handler.py:155-173 | The server's slices of the file payload recover id, size, name and ciphertext |
| Wire.FilePayloadShape | Maman15Client/Maman15Client/FileHandler.cpp:47-52 | Where id, size, name, zero padding and ciphertext are in the file payload |
| Wire.CrcPayloadShape | Maman15Server/client_handler.py:185-187 | Where id, size, name, zero padding and checksum are in the 279-byte payload |
| Wire.CrcPayloadRoundTrip | Maman15Server/client_handler.py:185-189 | The client's fixed offset in the 279-byte payload recovers the checksum the server packed |
| Wire.SizesExact | Maman15Client/Maman15Client/FileHandler.cpp:45-60 | File size, payload size and frame size in uint32 are all exact if and only if the plaintext has at most 4294966991 bytes |
| ByteStrings.NameFieldRoundTrip | Maman15Server/client_handler.py:160-163 | The server recovers the file name if and only if it has at most 255 bytes and no trailing zero byte |
| ByteStrings.RstripUnique | Maman15Server/client_handler.py:163 | Stripping yields the only prefix without trailing zero byte that leaves nothing but zeroes behind |
| ByteStrings.LittleEndian | Maman15Server/protocol.py:66-67 | Two and four bytes read as numbers have their lowest byte first |
| Tables.BytesLeInjective | Maman15Server/database.py:30 | Two ids are stored as the same key if and only if they are equal |
| Tables.BytesLeFields | Maman15Server/database.py:30 | The first four, the next two and the next two bytes of an id are stored backwards, the other eight as they are |
| ClientCodec.ClientRequest.SerializeIntoBuffer | Maman15Client/Maman15Client/ClientRequest.cpp:54-71 | Writes exactly the frame at the start of the buffer and leaves the rest alone |
| ClientCodec.ClientRequest.constructor | Maman15Client/Maman15Client/ClientRequest.cpp:9-28 | Copies its arguments; the size is narrowed to 32 bits |
| ClientCodec.ServerResponse.constructor | Maman15Client/Maman15Client/ServerResponse.cpp:19-51 | Reads version, code, size and the clamped payload from the buffer, inside its bounds |
| ClientCodec.EncryptedFileFrame | Maman15Client/Maman15Client/FileHandler.cpp:12-58 | The array handed to the socket is the whole frame of the encrypted file, of exactly the 32-bit size computed for it |

## Left out

- Sockets, the accept loop, logging, console output, `transfer.info`, the port file and pointer ownership: plumbing; streams are byte sequences with an end.
- RSA, AES blocks, the checksum, UUIDs and random keys: abstract functions with the stated laws, or choices of the environment. Checksum equality is never taken to mean equal data.
- SQLite commits, faults of UPDATE statements and the foreign key: tables are sequences changed by locked steps, and only an insert can fail.
- UTF-8 decoding: names are byte strings.
- Path resolution and partial writes: a path is a function of the file name, and a save is one atomic step that succeeds or changes nothing.
- The last-seen time: a number chosen by the environment.
- Several reads within one attempt's send, or within one checksum: each is one snapshot of the file, up to 4294966991 bytes; the two snapshots are independent, and a file that cannot be read gives the checksum 0.
- The order in which C++ evaluates the two arguments that compare the checksums: the response is read first.
- Short header reads in a composed session: a header read is whole unless the stream ends (`ServerWorld` allows short ones).
- Client sends always succeed; a handler's send may fail only when its client has gone (`ServerWorld` lets any of them fail).
- User names of more than 255 bytes in a composed session: they would shift the public key in the key request.
- Memory behind the me.info buffer that has no zero byte at all: the string then ends where the given bytes end. A malformed private key is not rejected here.
- ServerCode.ClientHandler.HandleClient: does not model other threads between the steps of its methods, because a method runs to its end here; `ServerWorld` and `World` interleave the same steps freely.
- ClientCode.MainClient.Run: sees the server only as the bytes it sends before it closes; `Session` joins the two ends step by step.
- ServerTheorems.VerifiedMeansConfirmed: speaks of a client and name, not of a row, because the source marks all rows of that pair.
- Protocol.SuccessIsConfirmed: does not promise a completed save, because the source acknowledges before it saves; `SaveOutcome.SavedIffAccepted` says exactly when the save follows.
