# A verified model of the encrypted file transfer

A C++ client sends one file, encrypted, to a Python server. The client registers or reconnects,
exchanges keys, cuts the ciphertext into packets of at most 4096 octets, and compares the
checksum that the server computes from the decrypted file with its own. It confirms the file
(900), asks for another upload (901), or has it discarded after four failures (902). The server
keeps its clients and files in memory, in an SQLite database and on disk, and serves one request
at a time.

The project models that system in Dafny and proves what it is for: that the checksum is the POSIX
`cksum` and detects what a CRC of its kind detects; that the server's three stores keep their
relations in every run; that the client ends against every stream of answers, within its limits
and with the right verdict; and that any number of clients, in any interleaving with the server,
deliver their files, session after session.

| Files | Content |
|---|---|
| `Octets`, `BitStrings`, `Register`, `Division`, `CrcTable`, `Checksum` | the checksum: polynomial division, the register, the table, and the C++ and Python procedures |
| `ErrorDetection`, `NumberTheory`, `TwoBitErrors` | what the checksum detects, and what it does not |
| `Text`, `Unicode`, `Wire`, `Layouts`, `Packets`, `AnswerFormat`, `SavedFiles` | formats: names in UTF-8, requests, packets, answers, the saved identifier, and what each parser accepts |
| `Cryptography` | encryption as functions whose laws are hypotheses |
| `ServerModel`, `ServerInvariant`, `ServerSync`, `Divergence`, `ServerIsolation`, `ServerAnswers`, `ServerReplies` | what each request does to the server and is answered, and what all runs keep |
| `ServerObjects` | the server as objects updated in place, proved to do what `ServerModel` says |
| `ClientModel`, `ClientRuns`, `ClientOutcomes`, `ClientRetries`, `ClientFraming` | the client as a machine driven by octets, what all its runs satisfy, when it asks again and why it exits |
| `ClientObjects` | the client as objects and retry procedures, proved to do what `ClientModel` says |
| `Views`, `System`, `SystemServer`, `SystemClient`, `SystemRuns`, `SystemProgress`, `Abandonment` | clients and server together, over streams of octets, with and without faults |

Requests and answers are octets throughout: the model's client and server write and parse the same
streams as the programs. Exceptions of the server are outcomes that keep what was changed before
they were raised; exits of the client are a phase.

## Hypotheses

- A read of n octets returns n octets, and what one procedure sends arrives as a whole.
- Encryption is a pair of functions: decryption with the same 32-octet key gives the plaintext
  back, no ciphertext is empty, and a wrapped key is recovered by the matching private key.
  Decryption of anything else may fail or give anything.
- Identifiers drawn by the server are new, and for the theorems about the whole system contain no
  zero octet. `ClientOutcomes.ZeroInIdentifier` shows what happens otherwise.
- Names of clients and files are plain components of a path, in UTF-8, without zero octets, and
  the file name is shorter than its field of 255 octets. Client names of a system are different.
- Public keys have 160 octets, the size that the server reads (`Wire.PublicKeyFraming`).
- Faults alter the message content of packets under way and keep its length.
- Files are smaller than 2^31 octets where the C++ checksum or the send procedure is run on them.

- A client that returns with saved credentials is listed under the same identifier, if at all, and
  a key on record that can be imported is the public half of its saved key. Whatever files the
  server lists for it, valid or not, are part of the model; so are clients that the server has
  forgotten, clients that it turns away, and clients without credentials whose name is taken.

`SystemProgress.SomeSystemStarts` shows that the hypotheses about a system can be met together, and
`SystemRuns.SessionsChain` that they hold again when a session has ended.

## Where the programs do not do what they seem to promise

- `set_valid_crc` changes the rows of all files of a client, and `delete_file` the rows of that
  name of all clients (Server/sql.py:21, 44). `ServerSync.SyncExactly` gives the exact requests
  after which tables and memory disagree, and `Divergence.FlagsDiverge` and
  `Divergence.TablesDiverge` are runs that get there.
- The documentation says that the server deletes the file after four attempts with an invalid
  checksum (README.md:15). It is gone from the list and the disk if the fourth failure is a
  mismatch; if the fourth failure is an error answer, the client exits and what was last received
  stays on disk and listed, not valid. `SystemRuns.ClientsEnd` says which, and
  `Abandonment.AbandonedRun` is a run of the second kind.
- A client whose registration was interrupted before its public key arrived can never upload: its
  reconnection is refused because the key on record cannot be imported, and then its registration
  because its name is taken. `Views.ReconnectRefused` and `SystemRuns.Delivered` give the exact
  condition.
- The received identifier is cut at its first zero octet before it is compared
  (Client/answer.cpp:44-47), so a client with a zero octet in its identifier never uploads.
- The documentation calls the folder `clients_files` (README.md:21); the code calls it
  `clients files` (Server/general.py).
- Sizes are converted to `int` (Client/client.cpp:205-206) before the size limit is checked.
  `Packets.RefusedOrWhole` says exactly for which ciphertexts the limit works.
- Different lengths are not told apart by the checksum: `ErrorDetection.LengthCollision`.

## Model

| member | source | states |
|---|---|---|
| Checksum.CksumIsPosix | Client/cksum_new.cpp:449-466 | For every input, empty or not, the complement of the checksum is the remainder, and the only one, of dividing data, minimal little-endian length octets and 32 zero bits by the generator polynomial over GF(2) |
| Checksum.MemcrcClient | Client/cksum_new.cpp:449-466 | The two table-driven loops over an array return the bit-by-bit checksum, for every array that the `int` index can cover |
| Checksum.MemcrcServer | Server/cksum.py:62-75 | The Python loops over unbounded integers return the same checksum for every input |
| Checksum.UpdateIntIsUpdate | Server/cksum.py:67-69 | From a state below 2^32 the integer update uses a table index below 256 and gives the state of the 32-bit update, which is again below 2^32 |
| CrcTable.TableEntry | Client/cksum_new.cpp:12-66 | All 256 entries of the first table are the index, placed at the top of the register, after eight steps of the division |
| Checksum.UpdateIsEightSteps | Client/cksum_new.cpp:454-457 | One table-driven update is eight steps of the register after adding the octet |
| Division.RemainderUnique | Server/cksum.py:64-75 | A bit string has only one remainder of 32 bits: two candidates that differ from the message by multiples of the generator are equal |
| ErrorDetection.CksumAffine | Client/cksum_new.cpp:449-466 | For inputs of equal length the sum of both checksums and that of as many zero octets is the checksum of the sum of the inputs |
| ErrorDetection.SameCksum | Client/cksum_new.cpp:449-466 | Inputs of equal length have the same checksum if and only if the difference of their bits leaves the register at zero |
| ErrorDetection.BurstDetected | Client/cksum_new.cpp:454-464 | Two different inputs of equal length whose differing bits lie in any window of 32 consecutive bits have different checksums |
| ErrorDetection.LengthCollision | Client/cksum_new.cpp:459-463 | n zero octets and 256 n zero octets have the same checksum, for every n above zero |
| TwoBitErrors.OrderOfX | Client/cksum_new.cpp:454-464 | The powers of x modulo the generator return to 1 exactly at the multiples of 2^32 - 1 |
| TwoBitErrors.TwoBitErrors | Client/cksum_new.cpp:454-464 | Inputs of equal length that differ in exactly two bits have the same checksum if and only if the distance of the bits is a multiple of 2^32 - 1 |
| TwoBitErrors.TwoBitErrorsNoticed | Client/various_functions.cpp:4-16 | No two inputs that fit into 65535 packets and differ in exactly two bits have the same checksum |
| Unicode.ValidExactly | Server/request.py:74 | The test for UTF-8 accepts an octet string if and only if it encodes a sequence of Unicode scalar values, one to four octets each, without surrogates |
| Unicode.TextExactly | Server/request.py:74 | A field is read as text if and only if it encodes scalar values, and then without its zeros |
| Unicode.NameIsRead | Server/request.py:74 | A name, given by its characters, is what the server reads from the padded field |
| Text.FieldRoundTrip | Server/request.py:74 | So is a name, given by its octets, that is valid UTF-8 without zero octets |
| Text.StripZerosConcat | Server/request.py:74 | Zero octets are left out wherever they stand, and nothing else |
| Wire.NumberRoundTrip | Server/various_functions.py:31-36 | A number written with a given number of octets is read back modulo the capacity of the field |
| Layouts.DigitAt | Server/various_functions.py:31-36 | Octet i of a number is its digit for 256 to the power i, the least significant first |
| Layouts.RequestOctets | Client/request.cpp:36-63 | Identifier, version 3, code and payload size in little endian, payload, octet by octet |
| Layouts.DecodeExactly | Server/request.py:57-71 | For every octet string: closed, too short, or exactly the request that the octets at their fixed positions mean, and what follows; a wrong version or an unknown code is rejected after the header, a packet shorter than its fields after them |
| Wire.DecodeEncode | Server/request.py:63-71 | From any well-formed request followed by anything, the header parser and the handler's reads recover the request and leave what follows |
| Wire.DecodeEncodeAll | Server/server.py:29-58 | Any sequence of well-formed requests, one after the other, is read as exactly that sequence |
| Wire.PublicKeyFraming | Server/request.py:113-121 | Request 826 is recovered if and only if its key has 160 octets, whatever size its header announces |
| ClientFraming.EverythingSentIsRead | Client/request.cpp:11-105 | Whatever a client is answered in its whole life, the octets that it has sent are parsed by the server as exactly the requests that it meant |
| ClientFraming.StepSends | Client/request.cpp:36-63 | At every step, what the server has read and what is under way are together exactly the octets of all that the client has sent |
| Packets.PacketsCoverUpload | Client/client.cpp:204-237 | ceil(size/4096) packets, numbered from 1 without wrapping, none empty or above 4096 octets, all well-formed, whose contents together are the ciphertext |
| Packets.Reassembly | Server/request.py:142-151 | Writing the packets in order leaves exactly the ciphertext at the path, whatever an earlier upload left there, and nothing else changes |
| Packets.UploadArrives | Server/request.py:131-151 | Sent as octets, parsed and written, the ciphertext is what ends up on disk |
| Packets.TotalPacketsIsCeiling | Client/various_functions.cpp:4-16 | The count is the ceiling of size/4096 if the size is at most 65535 packets, and a refusal otherwise |
| Packets.RefusedOrWhole | Client/client.cpp:205-237 | The client refuses a ciphertext or transmits all of it if and only if its size fits an `int` or the converted size is above the limit |
| ServerInvariant.ServeKeeps | Server/server.py:42-58 | Every request, answered or refused, keeps: names and identifiers of clients differ, files of a client have different names and know owner and path, every listed file is on disk, the clients table equals the list, every file row is unique and belongs to a listed file |
| ServerInvariant.RegisterKeeps | Server/request.py:73-85 | Registration keeps the invariant and its insertion never meets a duplicate key |
| ServerInvariant.NewFileKeeps | Server/request.py:163-171 | A first packet of a new file keeps the invariant and its insertion never meets a duplicate key |
| ServerInvariant.DeleteFileKeeps | Server/request.py:198-203 | A file to be deleted is on disk, and deleting it keeps the invariant |
| ServerInvariant.PathInjective | Server/request.py:145 | Folder, client and file name can be told from the path: equal paths have equal parts |
| ServerInvariant.RestartKeeps | Server/server.py:61-73 | A restart recovers exactly the clients with their keys, gives each the files that the table has for it, all of which were listed before, and keeps the invariant |
| ServerInvariant.ReachableOk | Server/server.py:79-96 | Every state reached from an empty server by any requests and restarts satisfies the invariant |
| ServerSync.RestartIdentity | Server/server.py:61-73 | A restart changes nothing if and only if the files table holds each client's files as its record does |
| ServerSync.SyncExactly | Server/sql.py:18-55 | While tables and memory agree, a request keeps them in agreement if and only if it is not a first packet for a file while another of the client is valid, a 900 while another is not valid, or a 902 for a name that another client also lists |
| ServerSync.ModestRunSynced | Server/sql.py:18-55 | In every run in which no client lists two files and no two clients list the same name, tables and memory agree after every event, and a restart is the identity |
| ServerSync.DeletionForgetsOthers | Server/sql.py:44 | When two clients list a name and one has its file deleted, the other's file stays on disk and in its record but is forgotten by a restart |
| ServerSync.DeletionIsThenRefused | Server/sql.py:47-49 | A deletion is answered by an error if and only if no row of that name is left, although the file has left the disk and the list in both cases |
| Divergence.FlagsDiverge | Server/sql.py:18-24 | A possible run from an empty server, two files uploaded and approved and the first begun again, after which the second is listed as valid, its row is not, and a restart takes the flag away |
| Divergence.TablesDiverge | Server/sql.py:38-55 | A possible run of five requests from an empty server after which a listed file on disk has no row and a restart differs |
| ServerIsolation.Isolated | Server/request.py:75-201 | A request leaves the record, the table row and the whole folder of every client with another identifier as they were |
| ServerIsolation.RunIsolated | Server/server.py:92-96 | So does any sequence of requests of others |
| ServerAnswers.AnsweredOnce | Server/server.py:29-58 | No answer is sent exactly for a successful packet that is not the last and a successful 901; every other request gets one, and pending input is discarded exactly on errors |
| ServerAnswers.ErrorsDrain | Server/server.py:38-58 | In every state, pending input is discarded if and only if the answer is 1601 or 1607 |
| ServerAnswers.AnswersAreShaped | Server/request.py:9-46 | The code is one that the request can get, the announced size is the number of octets that follow, and an answer that names a client names the one of the request |
| AnswerFormat.AnswerConsumed | Client/answer.cpp:4-105 | In every phase the client reads the header and exactly the announced octets of an answer, or exits |
| AnswerFormat.ReportIsRead | Client/client.cpp:287-297 | From the server's answer 1603 the client reads back the checksum, after identifier, size and name have passed its checks |
| Layouts.AnswerOctets | Server/answer.py:11-14 | Version 3, code and size of an answer at their positions, then the payload |
| Layouts.ReportOctets | Server/request.py:32-40 | Answer 1603 octet by octet: identifier, content size, name with zeros after it, checksum of the plaintext |
| Layouts.ReadHeaderExactly | Client/answer.cpp:4-27 | The client accepts a header if and only if seven octets arrive and the first is 3 |
| Layouts.CheckedExactly | Client/answer.cpp:35-56 | The check of a string passes if and only if the field arrives and is the expected string, without zeros, up to its end or a zero |
| Layouts.ReadReportExactly | Client/client.cpp:288-297 | The report of a file is accepted if and only if identifier, content size and file name are the client's own; the checksum is its last four octets |
| ServerReplies.RegisterExactly | Server/request.py:73-85 | 825 is answered 1601 for a name that is no text or is listed, changing nothing, and else 1600 with the new identifier, list and table longer by that client |
| ServerReplies.CharactersAreRegistered | Server/request.py:74-84 | A name, given by its characters, is answered 1600 if no client has it and 1601 if one has |
| ServerReplies.ReconnectExactly | Server/request.py:89-111 | By what is listed under the name: 1606 if nobody is, an error without any change for another's identifier, 1606 for a key that cannot be imported, and else a new key that stays in list and table even if wrapping it fails |
| ServerReplies.ReconnectCodes | Server/request.py:89-111 | 1605 if and only if the name is listed under this identifier with a key that can be imported and wraps the new key; 1606 if and only if nobody has the name or it is listed under this identifier with a key that cannot be imported; 1607, after the input is discarded, in all other cases |
| ServerReplies.PublicKeyExactly | Server/request.py:113-129 | 826 is refused without any change for a name that is not listed or another's identifier; else both keys are kept, even if wrapping fails |
| ServerReplies.PacketExactly | Server/request.py:131-175 | What every packet leaves on disk, in the list and in the table, and how it is answered: nothing for a name that is no text or denotes a directory and for an unknown client, the written content alone for a file that is not listed, else the entry, the rows and, for the last packet, the decrypted content |
| ServerReplies.PacketRefused | Server/request.py:131-175 | A packet is refused if and only if its name is no text or denotes a directory, no client has the identifier, it is not the first and the file is not listed, or it is the last and the content does not decrypt to the announced size |
| ServerReplies.VerdictExactly | Server/request.py:177-211 | 900, 901 and 902 for a file that its client lists as not valid: the flags, nothing, or the deletion, with their answers; for any other file an error without any change |
| ServerReplies.VerdictAccepted | Server/request.py:177-211 | A verdict is accepted if and only if the client lists the file as not valid and, for 902, a row of that name is left |
| ServerReplies.InvalidExactly | Server/server.py:52-58 | A wrong version or an unknown code is answered 1607 and changes nothing |
| ServerReplies.PathsAre | Server/request.py:145 | A file is stored under the folder, the client's name and its own, in this order |
| ServerObjects.Server.Read | Server/server.py:29-58 | Reading a connection does to the lists, the tables, the disk and both streams what parsing and serving the request says, including errors and the end of input |
| ServerObjects.Server.RegistrationRequest | Server/request.py:73-85 | Search, append, insert and answer change the state as the specification of 825 says |
| ServerObjects.Server.ReconnectionRequest | Server/request.py:89-111 | The same for 827, with its three refusals |
| ServerObjects.Server.SendPublicKeyRequest | Server/request.py:113-129 | The same for 826; the key is read only for a client that is found |
| ServerObjects.Server.CreateSendAes | Server/request.py:9-16 | The new key is in memory and in the table even if wrapping it fails |
| ServerObjects.Server.SendFileRequest | Server/request.py:131-175 | The same for 828: overwrite or append, flags, new rows, last packet |
| ServerObjects.Server.LastPacketReceived | Server/request.py:25-41 | The file is decrypted in place before its size is compared; the answer carries the checksum of the stored plaintext |
| ServerObjects.Server.CrcResponse | Server/request.py:177-211 | The same for 900, 901 and 902 |
| ServerObjects.Server.RemoveFile | Server/request.py:198-203 | The file leaves the disk, the list and the table in this order, and the last step can fail |
| ServerObjects.Server.Restarted | Server/server.py:61-73 | The two loops over the tables rebuild the lists that the restart specification names |
| ServerObjects.Connection.Clean | Server/various_functions.py:45-60 | Nothing is left of the pending input |
| ServerObjects.Database.DeleteFile | Server/sql.py:38-55 | Exactly the rows of other names are left, none lost and in their order, and it fails exactly if no row had the name |
| ServerInvariant.WithoutNameIsOnly | Server/sql.py:44 | The deletion keeps each row of another name, at ascending former positions, and no other |
| ServerObjects.Database.SetValidCrc | Server/sql.py:18-24 | Row by row: each row of the client carries the flag, every other row is as it was |
| ClientRuns.NewClientLimits | Client/client.cpp:30-57 | Against every stream of octets a client without credentials ends and has sent 825, 826, its file, 900 and 902 at most four times each and 901 at most three times |
| ClientRuns.KnownClientLimits | Client/client.cpp:134-183 | The same for a client that reconnects, with 827 at most four times |
| ClientRetries.ReconnectExactly | Client/client.cpp:134-191 | What the client makes of every octet string that answers 827: the same 827 again after 1607 unless it is the fourth, 825 after 1606, the upload after 1605 with its identifier and a usable key, and exit otherwise |
| ClientRetries.RegisterExactly | Client/client.cpp:31-57 | The same for 825: again after 1601 and 1607 unless it is the fourth, 826 with the received identifier after 1600, exit otherwise |
| ClientRetries.KeyExactly | Client/client.cpp:60-89 | The same for 826: again with the next key pair after 1607 unless it is the fourth, the upload after 1602 with its identifier and a usable key, exit otherwise |
| ClientRetries.VerdictExactly | Client/client.cpp:251-274 | The same for 900 and 902: again after 1607 unless it is the fourth, the end after 1604 with its identifier, exit otherwise |
| ClientRetries.InterpretExactly | Client/client.cpp:277-297 | Which octet strings an upload takes as an error, which as a report with which checksum, and which as neither |
| ClientRetries.AsksAgain | Client/client.cpp:322-331 | Over every run, for 825, 826, 827 and the final verdict: each repetition is the same request, with the next key pair for 826; all answers before the deciding one are errors; an error decides only if it is the fourth, and then the client leaves |
| ClientRetries.SentOnceMore | Client/client.cpp:322-331 | Each of these is sent exactly once more than it is answered by an error, and four times if all four are errors |
| ClientRetries.RunExitsExactly | Client/client.cpp:30-331 | A run ends with an exit if and only if somewhere in it there is a fourth error answer, an answer that is not expected, too short or about someone else, or a key that cannot be used |
| ClientRetries.ClientsAskAgain | Client/client.cpp:6-28 | Both for a client that starts without credentials and for one that reconnects |
| ClientOutcomes.ClientsOutcome | Client/client.cpp:239-331 | Over every run from either start: a client that comes to upload can do so, at most four answers are taken, all before the last are failures, the last decides between 900, 902 and exit, the log is what these answers call for, and the run ends accordingly |
| ClientOutcomes.FirstUploadIsAble | Client/client.cpp:185-201 | From every phase before it, a run comes to its first upload with a usable key and a file that fits, or exits |
| ClientOutcomes.UploadOutcome | Client/client.cpp:239-331 | For every stream of answers to uploads: mismatches and error answers share one counter; 900 follows exactly a matching checksum, 902 exactly a mismatch that is the fourth failure, exit a fourth error or anything malformed; and the log is exactly one 901 per earlier mismatch and one upload per earlier failure |
| ClientOutcomes.FinishedMeans | Client/client.cpp:268-273 | From its first upload, a client finishes with 900 only if it was told its own checksum, with 902 only if the fourth of four answers was a mismatch |
| ClientOutcomes.ClientsSendInOrder | Client/client.cpp:241-247 | Over every run nothing goes back to an earlier stage, no upload follows 900 or 902, these two are never both sent, and 901 comes only right after an upload |
| ClientOutcomes.CheckedIdentifier | Client/answer.cpp:35-56 | The check of an identifier passes if and only if it arrives and contains no zero octet |
| ClientOutcomes.ZeroInIdentifier | Client/answer.cpp:44-47 | A client that was given an identifier with a zero octet exits without an upload, whatever it is answered |
| ClientOutcomes.ZeroInSavedIdentifier | Client/client.cpp:134-183 | A client that reconnects with such an identifier exits without an upload, unless it is sent to register anew |
| ClientObjects.Program.Execute | Client/client.cpp:6-28 | The program, started either way, ends in the phase, the memory and the sent octets of the machine's run |
| ClientObjects.Program.Registering | Client/client.cpp:31-57 | Registration with its retries, and all that follows, is the machine's run |
| ClientObjects.Program.Reconnection | Client/client.cpp:134-183 | Reconnection is the machine's run, or hands over to registration with its failures restarted |
| ClientObjects.Program.SendPublicKeyGetAes | Client/client.cpp:60-89 | A new key pair for every attempt; on success the received key is the one used by the upload that follows |
| ClientObjects.Program.SendFile | Client/client.cpp:194-248 | Upload, check and retry are the machine's run from the same failure count |
| ClientObjects.Program.SendPackets | Client/client.cpp:204-237 | The send loop writes the octets of all packets, in order |
| ClientObjects.Program.CrcChecking | Client/client.cpp:277-319 | One answer to an upload is judged as the machine judges it, and the verdict has been sent |
| ClientObjects.Program.TheEnd | Client/client.cpp:251-274 | The last request and its retries are the machine's run |
| ClientObjects.ClientRequest.AppendStringPayload | Client/request.cpp:26-33 | The payload grows by the string, padded with zero octets to the width |
| ClientObjects.ClientRequest.SendToServer | Client/request.cpp:36-63 | The header fields and the payload are written in order |
| ClientObjects.ClientAnswer.GetHeader | Client/answer.cpp:4-27 | The header is read as the specification says, or the program exits for a short input or another version |
| ClientObjects.ClientAnswer.ReadStringAndCheck | Client/answer.cpp:35-56 | It passes exactly when the octets before the first zero are the expected string |
| ClientObjects.ClientAnswer.GetEncryptedAes | Client/answer.cpp:60-72 | The rest of the payload is read; sizes that are too small or do not fit an `int` make it exit |
| SavedFiles.HexRoundTrip | Client/various_functions.cpp:52-131 | Any octets converted to hexadecimal and back are the same |
| SavedFiles.DigitsAreWritten | Client/various_functions.cpp:122 | The digits written are those of 0123456789abcdef |
| SavedFiles.DigitsAreRead | Client/various_functions.cpp:58 | A character is read as a digit if and only if it is that digit in lower or upper case |
| SavedFiles.SpacesAreRead | Client/various_functions.cpp:58 | A character is passed over if and only if it is one of the six spaces of C |
| SavedFiles.PairsAreRead | Client/various_functions.cpp:57-58 | What every pair of characters is read as: two digits, one before or after something else, spaces and signs |
| SavedFiles.SizeCheck | Client/client_ob.cpp:29-36 | The size check on reconnection accepts exactly texts of 31 or 32 characters |
| SavedFiles.ConvertStringToHex | Client/various_functions.cpp:114-131 | The loop yields two digits per octet |
| SavedFiles.ConvertHexToBytes | Client/various_functions.cpp:52-62 | The loop converts any text, two characters at a time, as `strtol` does |
| SavedFiles.FindFileName | Client/various_functions.cpp:18-29 | The result is the longest end of the path without a backslash |
| Views.PacketEffect | Server/request.py:131-175 | What a packet changes for its client, whatever else the client lists: the flag of the file, the content on disk, and the answer, by packet number, decryption and size |
| Views.DiscardEffect | Server/request.py:198-203 | After 902 the file is neither listed nor on disk, whichever answer is sent |
| Views.OtherFileStays | Server/request.py:142-202 | A request about one file leaves every other file of the same client listed with its flag and stored as it was |
| Views.ReconnectRefused | Server/request.py:99-105 | A listed client's reconnection is refused, changing nothing, if and only if its key on record cannot be imported |
| Views.RegisterRefused | Server/request.py:75-79 | A name that is listed cannot be registered again, and nothing changes |
| System.ServerSideExactly | Server/server.py:29-58 | For every octet string under way: nothing happens before a request is complete; then exactly its octets are taken, its answer follows, and after an error answer nothing is waiting |
| SystemRuns.StepOk | Server/server.py:92-96 | One step of any client, of the server, or of a fault keeps the invariant of the whole system |
| SystemRuns.RunOk | Server/server.py:92-96 | So does every run, in any interleaving, with clients that register, that return to files listed as valid or not, that the server has forgotten, or that it turns away |
| SystemRuns.ValidMeansMatching | Server/request.py:188-195 | In every reachable state a file marked valid has the length and the checksum of the client's file, and over an unaltered link is the client's file, unless it is the file that was valid before and the client has not finished |
| SystemRuns.ValidMeansIntact | Client/client.cpp:297-316 | Whatever message contents were altered under way, a file marked valid is the one that was valid at the start of the run, untouched, or has the original's length and does not differ from it by one burst of at most 32 bits or in exactly two bits |
| SystemRuns.ClientsEnd | Client/client.cpp:239-331 | What the server has when a client has ended: after 900 the file, valid and matching; after 902 nothing of it; after a fourth error answer what was last received, not valid; for a client that was turned away everything as before |
| SystemRuns.Delivered | Client/client.cpp:194-274 | A client that has ended over an unaltered link has finished with 900 and its own file is on disk, listed and valid, if and only if it was not turned away at the start |
| SystemRuns.SessionsChain | Client/client.cpp:134-183 | When clients have ended and none was turned away, all of them can start again, with any files, in a system to which the same theorems apply |
| SystemRuns.NotStuck | Client/client.cpp:251-297 | As long as a client has not ended, a request or an answer of it is under way |
| SystemProgress.RunsEnd | Client/client.cpp:241-244 | Apart from faults no run is longer than the work that it starts with |
| SystemProgress.MaximalRunsDeliver | Server/server.py:92-96 | A run that cannot go on has brought every client to its end, and over every unaltered link the file is delivered if and only if the client was not turned away |
| SystemProgress.CleanNeverFails | Client/client.cpp:277-319 | Over an unaltered link no upload is refused and no checksum is found wrong |
| Abandonment.AbandonedRun | Client/client.cpp:322-331 | A possible run of a system in which four uploads are altered and refused: the client exits, and its file is listed as not valid with something on disk |

## Left out

- Last-seen dates: the database and the objects take separate readings of the clock.
- Cryptography itself: AES, RSA and Base64 are abstract; wrapping the same key twice gives the same octets in the model.
- Sockets: selector, connection errors, partial reads, and answers interleaved with a send; the server's input is empty or holds whole requests.
- A client that sends on while the server discards input after an error: in the model an upload is sent as a whole before its first packet is read, so request and answer streams stay in step; alteration of headers or of the packets' own fields is not modelled.
- Restarts while clients are connected: restarts and arbitrary requests are covered by the theorems about the server alone.
- SQLite and the file system: tables are sequences of rows and the disk is a map from paths to contents; the creation of folders, permissions and full disks do not occur. Paths are compared as written; opening an empty name, `.` or `..` for writing fails.
- File objects of the server are values inside the client object's list, so that they are updated by replacing the entry; client objects are updated in place.
- `crctab[1]` to `crctab[7]`: never read by `memcrc`.
- Reading `transfer.info`, `me.info`, `priv.key` and `port.info`, and all console output: what is read there is a parameter, already checked for length.
- `find_file_name` recognises backslashes only, as in the source; the separators of other systems are not considered.
- Packets.Int32: conversions to a 32-bit `int` wrap around, as the compilers in use do.
- Wire.Decode: an input that ends in the middle of a request is reported as incomplete; what the server does with such an input depends on the sockets.
