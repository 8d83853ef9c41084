# i-PI socket calculator and NOMAD entry reader, modelled in Dafny

This project models two parts of ASE (the Atomic Simulation Environment).

**The i-PI socket protocol** (`ase/calculators/ipi.py`) is the first part.
- A server, `IPIServer`, owns a listening socket. It may launch a client subprocess.
- The server asks a client, `IPIClient`, for energies, forces and virials.
- The two sides exchange 12-byte space-padded ASCII command tokens, little-endian int32 counts and float64 arrays.
- `IPIProtocol` is the message layer used by both sides.

**The NOMAD reader** (`ase/nomad.py`) is the second part.
- It turns `nmd://` URIs into the archive's HTTPS address.
- It extracts the hash of an entry.
- It converts a `section_system` JSON dictionary into an `Atoms` value.
- It walks the `section_run` / `section_system` nesting of a calculation in order.

## Modules

- `Wire`: the byte-level codecs, each with a pure reader over the incoming stream.
  - Tokens: `sendmsg`/`recvmsg`.
  - int32 values, wrapped modulo 2^32 like numpy's cast.
  - float64 and int8 arrays (`send`/`recv`).
- `Messages`: the message payloads with their encoders and readers.
  - POSDATA (cell, inverse cell, atom count, positions).
  - FORCEREADY (energy, atom count, forces, virial, extra bytes).
- `Sockets`: a connected stream socket.
  - `incoming` holds what the peer will still send.
  - `outgoing` holds everything written so far.
  - `Recv` delivers an arbitrary non-empty prefix of `incoming`, or nothing once the peer has closed the connection.
- `Protocol`: the class `IPIProtocol`.
  - Each receiving method is proved to consume exactly what its pure reader reads.
  - Each sending method is proved to append exactly its encoded message.
  - `calculate` is tied to `ServerExchange` (what it returns) and `ServerSent` (what it sends).
- `Client`: the client loop `irun`.
  - It is specified by the session function `ClientRun`, which reads commands from the stream and records the replies.
  - Lemmas cover each command, and the full exchange against the server's `calculate`.
- `Server`: the class `IPIServer`.
  - It covers the endpoint choice, the accept loop (`_accept`), `close` and `calculate`.
  - It also holds the change guard of `IPICalculator.calculate`.
  - Subprocess polling and listener time-outs become a sequence of accept attempts supplied up front.
- `Nomad`: JSON values, the URI helpers, species clamping, the construction of `Atoms` from a `section_system`, and `dict2images`.

## Model

| member | source | states |
|---|---|---|
| Wire.TokenRoundTrip | ase/calculators/ipi.py:34-38 | an ASCII token of at most 12 characters that does not end in whitespace is sent as exactly 12 bytes, and recvmsg decodes it unchanged |
| Wire.EncodeToken | ase/calculators/ipi.py:34-38 | sendmsg writes the ASCII bytes of the token, then spaces up to 12 bytes; a longer token is sent whole |
| Wire.RStripSpec | ase/calculators/ipi.py:63 | rstrip returns the longest prefix that does not end in whitespace, and only whitespace follows it |
| Wire.AsciiDecodeSpec | ase/calculators/ipi.py:63 | ASCII decoding fails with an error exactly when some byte is above 127; otherwise it inverts ASCII encoding |
| Wire.DecodeToken | ase/calculators/ipi.py:63 | the received bytes decode exactly when what rstrip leaves is ASCII, and the token is those bytes as characters |
| Wire.VocabularyIsWireTokens | ase/calculators/ipi.py:19-21 | every statement and response of the protocol survives the 12-byte token encoding |
| Wire.ReadBytes | ase/calculators/ipi.py:40-55 | the first n bytes are read exactly when the stream has n bytes, and the bytes read followed by the rest are the stream; otherwise the socket is reported closed |
| Wire.ReadToken | ase/calculators/ipi.py:57-66 | a token read consumes exactly 12 bytes; a stream shorter than 12 bytes is reported as a closed socket |
| Wire.ReadArray | ase/calculators/ipi.py:74-84 | a negative dimension is refused; otherwise recv reads exactly itemsize times the product of the shape, and the array it returns has that many elements, of the requested dtype, all finite |
| Wire.ReadTokenOfEncoded | ase/calculators/ipi.py:57-66 | reading a token from a stream that starts with an encoded token yields that token and the rest of the stream |
| Wire.WrapInt32 | ase/calculators/ipi.py:68-72 | the int32 cast lands in the int32 range, differs from its input by a multiple of 2^32, and leaves in-range values alone |
| Wire.Int32RoundTrip | ase/calculators/ipi.py:68-84 | four little-endian bytes decode to the int32 wrap-around of the integer that was sent, so an in-range integer reads back unchanged |
| Wire.FloatsRoundTrip | ase/calculators/ipi.py:68-84 | a float64 array sent with send is read back unchanged by recv |
| Wire.IntsRoundTrip | ase/calculators/ipi.py:68-84 | an array of int32-range integers sent with send is read back unchanged |
| Wire.DecodeEncode | ase/calculators/ipi.py:68-84 | for every dtype, decoding the bytes of a representable array gives back that array |
| Wire.ReadArrayOfEncoded | ase/calculators/ipi.py:74-84 | recv of an encoded finite array with a matching shape returns it and leaves the rest of the stream |
| Wire.ReadFloatsOfEncoded | ase/calculators/ipi.py:74-84 | the float64 reader applied to an encoded finite array returns it and the remaining stream |
| Wire.ReadInt32OfEncoded | ase/calculators/ipi.py:74-84 | an int32-range integer that was sent is read back unchanged by the single-int32 reader |
| Wire.ReadRawOfEncoded | ase/calculators/ipi.py:74-84 | the int8 reader returns the bytes that were sent |
| Messages.ReadPosData | ase/calculators/ipi.py:98-104 | a successful POSDATA read yields a 3x3 cell, a 3x3 inverse cell, 3-vectors of positions and only finite values, and never grows the stream |
| Messages.ReadPositions | ase/calculators/ipi.py:101-104 | after the two cells, the atom count and the positions are read; the result keeps both cells and has finite positions in threes |
| Messages.PosDataRoundTrip | ase/calculators/ipi.py:86-104 | what sendposdata writes after the POSDATA token is read back by recvposdata as the same geometry, leaving the rest of the stream |
| Messages.PositionsRoundTrip | ase/calculators/ipi.py:94-104 | the atom count and positions that sendposdata writes are read back unchanged |
| Messages.PosDataPrefix | ase/calculators/ipi.py:98-104 | recvposdata on any proper prefix of a POSDATA payload runs out of bytes and reports the socket closed |
| Messages.PositionsPrefix | ase/calculators/ipi.py:101-104 | the same for a stream that ends inside the atom count or the positions |
| Messages.ReadRows | ase/calculators/ipi.py:115-118 | reading the forces and virial keeps the energy, and yields 3-vector forces, a 3x3 virial and only finite values |
| Messages.ReadForcePayload | ase/calculators/ipi.py:111-124 | a negative atom count after the energy is refused with NegativeAtomCount; a successful payload has the energy read first, finite, forces in threes and a 9-entry virial |
| Messages.ReadExtras | ase/calculators/ipi.py:116-122 | a count of zero or less gives no extra bytes and consumes nothing more; a positive count succeeds exactly when that many bytes follow, and they are the extras |
| Messages.ReadForceReply | ase/calculators/ipi.py:106-124 | a stream shorter than one token gives SocketClosed; a first token other than FORCEREADY is an UnexpectedReply naming it; after FORCEREADY the reply is the payload that follows |
| Messages.ExtrasRoundTrip | ase/calculators/ipi.py:119-124 | the length-prefixed extra bytes are read back unchanged |
| Messages.RowsRoundTrip | ase/calculators/ipi.py:115-118 | the forces and virial sendforce writes are read back unchanged |
| Messages.ForceRoundTrip | ase/calculators/ipi.py:106-140 | everything sendforce writes is read back by sendrecv_force as the same energy, forces, virial and extra bytes |
| Sockets.Socket.Recv | ase/calculators/ipi.py:49 | a receive takes a non-empty prefix of at most bufsize bytes from the stream, or returns nothing once the stream has ended |
| Sockets.Socket.SendAll | ase/calculators/ipi.py:38 | sendall appends every byte to the stream |
| Sockets.Socket.Close | ase/calculators/ipi.py:351 | close marks the socket closed and counts one more close |
| Protocol.MorebytesEntry | ase/calculators/ipi.py:180-181 | the extra bytes are reported exactly when there are some, and then unchanged |
| Protocol.MorebytesEntryAsWritten | ase/calculators/ipi.py:180-181 | the truth test as written: more than one extra byte is an error, and a single byte is kept only when it is nonzero |
| Protocol.MorebytesAsWrittenDiffers | ase/calculators/ipi.py:180 | the truth test on the received int8 array raises for two extra bytes and drops a single zero byte |
| Protocol.SuccessSendsAllRequests | ase/calculators/ipi.py:163-182 | a calculate that succeeds has sent STATUS, the POSDATA message, STATUS and GETFORCE, in that order |
| Protocol.ServerExchange | ase/calculators/ipi.py:163-182 | a client that sends less than one token gives SocketClosed; a geometry of the wrong shape gives BadShape once the first status reply has arrived; success needs the right shapes and consumes at least two tokens |
| Protocol.ExchangeAfterPosData | ase/calculators/ipi.py:174-182 | success needs the second status reply to be HAVEDATA; any other reply is an UnexpectedReply error naming it |
| Protocol.ServerSent | ase/calculators/ipi.py:163-182 | what one calculate sends always starts with STATUS and is a prefix of the full request sequence |
| Protocol.SentAfterPosData | ase/calculators/ipi.py:174-176 | after POSDATA the server sends STATUS, then GETFORCE only if that is allowed to go on |
| Protocol.IPIProtocol.SendMsg | ase/calculators/ipi.py:34-38 | sendmsg appends the 12-byte padded token to the stream |
| Protocol.IPIProtocol.RecvAll | ase/calculators/ipi.py:40-55 | _recvall consumes exactly the first nbytes of the stream and returns them in arrival order, whatever chunk sizes arrive; it fails with SocketClosed only when the stream ends first |
| Protocol.IPIProtocol.RecvMsg | ase/calculators/ipi.py:57-66 | recvmsg consumes 12 bytes and returns what the token reader gives |
| Protocol.IPIProtocol.Send | ase/calculators/ipi.py:68-72 | send appends the array's raw little-endian bytes |
| Protocol.IPIProtocol.Recv | ase/calculators/ipi.py:74-84 | recv consumes and returns what the array reader gives: an error for a negative dimension, SocketClosed for a short stream, NonFinite for a non-finite float |
| Protocol.IPIProtocol.RecvFloats | ase/calculators/ipi.py:74-84 | a float64 recv agrees with the float reader |
| Protocol.IPIProtocol.RecvInt32 | ase/calculators/ipi.py:74-84 | a one-element int32 recv agrees with the int32 reader |
| Protocol.IPIProtocol.SendPosData | ase/calculators/ipi.py:86-96 | sendposdata succeeds exactly when the cell, inverse cell and positions have valid shapes; it then appends the POSDATA message, and otherwise it appends nothing |
| Protocol.IPIProtocol.RecvPosData | ase/calculators/ipi.py:98-104 | recvposdata consumes what the POSDATA reader reads |
| Protocol.IPIProtocol.SendForce | ase/calculators/ipi.py:126-140 | sendforce succeeds exactly when the forces come in threes and the virial has 9 entries; it then appends the FORCEREADY message, and otherwise it appends nothing |
| Protocol.IPIProtocol.SendRecvForce | ase/calculators/ipi.py:106-124 | sendrecv_force sends GETFORCE and consumes what the force-reply reader reads; only the two streams change, so the socket is never closed here |
| Protocol.IPIProtocol.RecvForcePayload | ase/calculators/ipi.py:113-124 | after FORCEREADY, the energy, forces, virial and extras are read as the payload reader reads them |
| Protocol.IPIProtocol.RecvRows | ase/calculators/ipi.py:115-118 | the atom count, forces and virial are read as the row reader reads them |
| Protocol.IPIProtocol.RecvExtras | ase/calculators/ipi.py:119-124 | the extra-byte count and bytes are read as the extras reader reads them |
| Protocol.IPIProtocol.Status | ase/calculators/ipi.py:142-146 | status sends STATUS and returns the next token of the stream; only the two streams change |
| Protocol.IPIProtocol.End | ase/calculators/ipi.py:148-150 | end sends EXIT |
| Protocol.IPIProtocol.Calculate | ase/calculators/ipi.py:163-182 | calculate returns what ServerExchange reads (the first status unchecked, HAVEDATA required, then the force reply); what it sends is exactly ServerSent, which stops at the first failure |
| Protocol.IPIProtocol.Exchange | ase/calculators/ipi.py:171-182 | after POSDATA, a reply other than HAVEDATA is an UnexpectedReply error and sends nothing more; otherwise GETFORCE is sent and the reply is read |
| Client.ClientState.Token | ase/calculators/ipi.py:365-366 | the status the client answers is always a protocol response |
| Client.Evaluate | ase/calculators/ipi.py:374-380 | the client reports the engine's energy and forces; the virial is the engine's when stress is used and the 3x3 zero otherwise |
| Client.ClientStep | ase/calculators/ipi.py:355-388 | one pass of the loop either stops, or consumes at least one whole 12-byte token and goes on; HaveData always has cached results |
| Client.Dispatch | ase/calculators/ipi.py:362-386 | the branch on a received command never grows the stream, and HaveData always has cached results |
| Client.ClientRun | ase/calculators/ipi.py:353-388 | the whole client session over what the server sends: ClientStep until the loop stops; its behaviour per command is stated by the lemmas below, and IRun is proved equal to it |
| Client.CloseBetweenMessagesIsClean | ase/calculators/ipi.py:356-361 | when the server closes the connection between messages, the session ends without error and sends nothing |
| Client.ExitEndsCleanly | ase/calculators/ipi.py:362-364 | EXIT ends the session without error, sends nothing and leaves the state unchanged |
| Client.StatusRepliesState | ase/calculators/ipi.py:365-366 | STATUS is answered with READY or HAVEDATA according to the state, and the session goes on |
| Client.PosDataEvaluates | ase/calculators/ipi.py:367-381 | POSDATA in the Ready state reads the geometry, evaluates it with the engine and moves to HaveData with those results cached |
| Client.PosDataWhenHaveDataIsIllegal | ase/calculators/ipi.py:367-368 | POSDATA while results are waiting is an IllegalCommand error |
| Client.CloseMidPosDataFails | ase/calculators/ipi.py:367-369 | a connection that closes anywhere inside a POSDATA message, at any proper prefix of its payload, ends the session with SocketClosed and no reply |
| Client.CloseMidCellFails | ase/calculators/ipi.py:367-369 | whatever bytes arrive, fewer than the 72 of a cell after POSDATA end the session with SocketClosed |
| Client.GetForceSendsResults | ase/calculators/ipi.py:383-386 | GETFORCE in HaveData sends the FORCEREADY message with the cached energy, forces and virial, and returns to Ready |
| Client.GetForceWhenReadyIsIllegal | ase/calculators/ipi.py:383-384 | GETFORCE with no results waiting is an IllegalCommand error |
| Client.UnknownTokenIgnored | ase/calculators/ipi.py:362-386 | any other token is skipped without a reply |
| Client.ClientAnswersForceRequest | ase/calculators/ipi.py:365-386 | the STATUS and GETFORCE that end a server calculate are answered with HAVEDATA and the force message |
| Client.ClientAnswersCalculate | ase/calculators/ipi.py:353-388 | the whole request sequence of one calculate gets READY, HAVEDATA and the force message for the engine's results |
| Client.ServerReadsAnswers | ase/calculators/ipi.py:163-182 | those replies make the server's calculate return the client's energy, forces and virial, with nothing left over |
| Client.CalculateAgainstClient | ase/calculators/ipi.py:163-182 | a server calculate against a client loop succeeds with the engine's results, sends exactly the request sequence and leaves the client Ready |
| Client.IPIClient.constructor | ase/calculators/ipi.py:328-345 | a new client owns its socket, is open and is Ready |
| Client.IPIClient.Close | ase/calculators/ipi.py:347-351 | close closes the socket once; a second close does nothing |
| Client.IPIClient.Serve | ase/calculators/ipi.py:355-364 | one pass reads a command and acts as ClientStep says; the client is closed (the socket once) exactly when the stream ends between messages or the command is EXIT, which is exactly when the loop stops without an error |
| Client.IPIClient.Handle | ase/calculators/ipi.py:362-386 | the branch on a command changes the state, the stream and the output as Dispatch says; it closes the client exactly on EXIT |
| Client.IPIClient.IRun | ase/calculators/ipi.py:353-388 | irun's outcome, final state and everything it sends are those of ClientRun on the whole incoming stream, and the socket is closed exactly once at the end |
| Server.ChooseEndpoint | ase/calculators/ipi.py:212-215 | giving both a port and a Unix socket is an error; otherwise the one given is used, and neither gives TCP port 31415 |
| Server.FirstDecisive | ase/calculators/ipi.py:266-276 | the accept loop ends at the first attempt that connects, or that finds the launched subprocess finished; every earlier attempt timed out while it ran |
| Server.Listener.Accept | ase/calculators/ipi.py:268 | accept takes the next attempt, and a connection it returns is open |
| Server.Listener.AwaitDecisive | ase/calculators/ipi.py:266-276 | the loop returns the first decisive attempt and consumes exactly the attempts up to it |
| Server.Listener.Close | ase/calculators/ipi.py:309-310 | the listening socket is closed |
| Server.Subprocess.Wait | ase/calculators/ipi.py:300-301 | wait returns the exit code and records it as the return code |
| Server.IPIServer.constructor | ase/calculators/ipi.py:188-251 | a new server is open, with no client socket and no protocol |
| Server.IPIServer.Accept | ase/calculators/ipi.py:253-283 | _accept ends at the first decisive attempt: a finished subprocess gives SubprocessTerminated with its status, and a connection becomes the client socket and protocol |
| Server.IPIServer.Close | ase/calculators/ipi.py:285-311 | close keeps the server consistent, so it can be called again; the first call ends the protocol, closes the client socket once, waits for the subprocess and closes the listener, returning a nonzero exit status as a warning; a repeat call returns no warning and leaves the listener, the subprocess and the client socket as they were |
| Server.IPIServer.Calculate | ase/calculators/ipi.py:313-324 | a closed server (also one closed twice) refuses with ServerClosed and changes nothing, neither the client socket nor the backlog; otherwise it accepts a client if it has none (keeping the connection and address it had, if any) and runs the protocol's calculate on that socket, which is not closed; the other sockets of the backlog are untouched |
| Server.BadChanges | ase/calculators/ipi.py:486-487 | the bad changes are exactly the requested changes other than positions and cell |
| Server.IPICalculator.CheckChanges | ase/calculators/ipi.py:486-495 | an initialized calculator refuses any unsupported change and reports the offending changes; otherwise it becomes initialized |
| Nomad.NmdToHttps | ase/nomad.py:13-15 | only an nmd:// URI is converted |
| Nomad.HttpsCarriesHash | ase/nomad.py:9-15 | the HTTPS address is the API template filled with everything after nmd:// |
| Nomad.NmdToHttpsInjective | ase/nomad.py:13-15 | different nmd:// URIs give different addresses |
| Nomad.Hash | ase/nomad.py:62-66 | the hash exists exactly when the entry has a string uri starting with nmd://, and it has six characters fewer |
| Nomad.HashIsUrlHash | ase/nomad.py:62-66 | the uri is nmd:// followed by the hash, and nmd2https places the same hash into the template |
| Nomad.Lookup | ase/nomad.py:76-86 | indexing a section succeeds exactly for a present key and gives its value |
| Nomad.GetOpt | ase/nomad.py:83-84 | dict.get of an absent key, and a JSON null, both read as absent; a present value is returned as it is |
| Nomad.Trunc | ase/nomad.py:78 | the cast of a float to int truncates toward zero |
| Nomad.ToInts | ase/nomad.py:77-78 | the species list converts exactly when every element is numeric, element by element, keeping its length and order |
| Nomad.ClampAsWrittenKeepsCount | ase/nomad.py:79-80 | the clamp as written keeps a species number equal to the size of the symbol table, which has no symbol for it; the corrected clamp maps it to 0 |
| Nomad.ClampedIndexesSymbols | ase/nomad.py:79-80 | after the corrected clamp, every species number indexes the symbol table; a number is unchanged exactly when it was already valid; clamping twice changes nothing more |
| Nomad.ClampedAsWritten | ase/nomad.py:79-80 | as written, every clamped species lies in 0..count inclusive, a species is unchanged exactly when it already lies there, so count itself survives, and a negative species or one past count becomes 0 |
| Nomad.Clamped | ase/nomad.py:79-80 | the corrected clamp keeps the number of species; a negative species or one at or past the symbol count becomes 0, a valid one is kept, and every result is an index of the symbol table |
| Nomad.ClampSpeciesAsWritten | ase/nomad.py:79-80 | the in-place clamp on the array, as written |
| Nomad.ClampSpecies | ase/nomad.py:79-80 | the in-place clamp on the array, corrected |
| Nomad.ToReals | ase/nomad.py:81-82 | the coordinates convert exactly when every element is numeric, element by element, keeping their number and order |
| Nomad.Rows3 | ase/nomad.py:82 | reshape(-1, 3) succeeds exactly when the length is a multiple of 3, and gives one row per three values |
| Nomad.FlattenRows3 | ase/nomad.py:82 | flattening the rows gives the flat coordinates back |
| Nomad.Rows3Flatten | ase/nomad.py:82 | reshaping flattened rows gives the rows back |
| Nomad.Cell3 | ase/nomad.py:95-98 | reshape(3, 3) succeeds exactly for 9 values and keeps them in row order |
| Nomad.Periodicity | ase/nomad.py:87-92 | the periodic dimensions are accepted exactly when they are a list of one entry whose flatData is a list of three values, and then they are that flatData |
| Nomad.OptionalPeriodicity | ase/nomad.py:83-92 | periodicity is set exactly when the section has it |
| Nomad.OptionalCell | ase/nomad.py:84-98 | the cell is set exactly when the section has one |
| Nomad.SystemToAtomsShape | ase/nomad.py:75-100 | the Atoms built from a section have the species of atom_species converted and clamped (with the corrected clamp, so each is an index of the symbol table); positions that flatten back to atom_positions.flatData; the section's uri; periodicity equal to the section's single flatData entry, and a 3x3 cell whose values are lattice_vectors.flatData, each exactly when the section has it |
| Nomad.SystemToAtoms | ase/nomad.py:75-100 | section_system2atoms as a function: name check, species, positions, uri, periodicity and cell, in the source's order of failure; its results are described by SystemToAtomsShape |
| Nomad.SectionSystemToAtoms | ase/nomad.py:75-100 | the imperative construction (array of species clamped in place) agrees with SystemToAtoms |
| Nomad.StreamFollowsPairs | ase/nomad.py:41-52 | when no error occurs, the images are those of the (run, system) pairs in run order and then system order |
| Nomad.DictImages | ase/nomad.py:41-52 | dict2images as a function: without section_run it yields nothing and stops with MissingSectionRun, and a section_run that is no list stops it at once too; otherwise the runs and their systems in order, as StreamFollowsPairs states |
| Nomad.SystemsFollowPairs | ase/nomad.py:46-52 | within one run, the images follow the systems in order, and the later runs carry on without error |
| Nomad.ImageOf | ase/nomad.py:47-52 | an image exists exactly when the system is a dictionary that converts to Atoms and the run gIndex, the system gIndex and the uri are present; its species, positions, pbc and cell are those of the converted system |
| Nomad.ImageOfTags | ase/nomad.py:48-51 | the image's info holds exactly the section uri, the run's gIndex, the system's gIndex and the calculation uri |
| Nomad.MakeImage | ase/nomad.py:47-52 | the inner loop body makes exactly the image ImageOf describes, or fails as it does |
| Nomad.DictToImages | ase/nomad.py:41-52 | the nested loops emit the images, and the error that stops them, as the stream DictImages defines |

## Left out

- Units: the Bohr and Hartree scaling of positions, cells, energies, forces and virials is left out, and so is `units.m` in the NOMAD reader. Floats are opaque 8-byte patterns, so a value is copied, not computed.
- The inverse cell: the server sends the inverse cell that the caller supplies. The matrix inverse (`pinv`) is not computed.
- The conversion from virial to stress, and the volume division in `IPICalculator.calculate`, are left out (floating point). So is the client's conversion from stress to virial, `-volume * stress` at ipi.py:377-378: the engine returns the virial directly.
- `IPIProtocol.sendinit`, and the handling of a NEEDINIT reply, are left out. Both are outside the exchange that `calculate` performs.
- Logging (`txt`, `log`) is left out.
- Creating, binding and listening on sockets is left out.
- `Popen` and the command string formatting are left out. The subprocess is an object with a fixed exit code.
- `IPICalculator.launch_server`, `write_input`, `todict` and the context-manager methods are left out. Only the change guard of `IPICalculator.calculate` is modelled.
- Server.IPIServer.Accept: the subprocess poll result and the listener time-out are data in the accept attempts. The method requires that some attempt decides (`AcceptEnds`). The source would block for ever otherwise.
- Client.IPIClient.IRun: the `yield` after each evaluation is not modelled. The engine is a total function from geometry to results, evaluated when POSDATA arrives. So two failures of the source are not modelled: the ValueError of `atoms.positions[:] = positions` when the server sends a different number of atoms than the Atoms object has (ipi.py:370-371), and any exception raised by the attached calculator. In the source either one ends irun through its `finally`, which closes the socket.
- Client.Evaluate: the engine cannot fail and is not given the client's Atoms, so the atom-count check of ipi.py:370-371 and calculator errors are not modelled (see Client.IPIClient.IRun).
- Protocol.IPIProtocol.Calculate (and every receiving method of Protocol.IPIProtocol): after a failed read, the contracts do not say how much of the stream was consumed. `WithRest` ties only a successful read to the rest of the stream. The source raises on such a failure, and the connection is not used again.
- Protocol.IPIProtocol.SendMsg requires an ASCII message. The source raises UnicodeEncodeError otherwise, and every call site passes a protocol word.
- Failed `assert` statements of the source become `Err` results with a named error, not exceptions.
- Tokens: `ljust(12)` pads but does not truncate. A longer message is sent at its full length, which desynchronises the stream. The model follows the code, and `TokenRoundTrip` is stated for tokens of at most 12 characters.
- `Atoms` is a record with species, positions, pbc, cell and info. The ASE `Atoms` class and its setters are not part of this model.
- `nmd2dict`, `read`, `download` and `main` are left out (network and JSON decoding). The model starts from a decoded JSON value.
- `section_singleconfig2calc` is left out. It is not used by the modelled functions.
- Nomad.ToInt: a JSON number becomes an int by truncation, and a boolean becomes 0 or 1. numpy's parsing of numeric strings is not modelled; a string is a NotNumeric error.
- A JSON value of the wrong kind where a list or dictionary is expected becomes a TypeMismatch error. In the source a number, boolean or null there raises TypeError, and a nonempty dictionary or string is iterated and fails with TypeError on its first element. An empty dictionary or empty string in a list position (`section_run`, or a run's `section_system`) is iterated as empty by nomad.py:44-47: the source yields no image for it and goes on without an error, where the model reports TypeMismatch (Nomad.DictImages, Nomad.SystemsOf).
- Protocol.IPIProtocol.Calculate: uses the corrected morebytes test (Protocol.MorebytesEntry), not the truth test of ipi.py:180, so two or more extra bytes give a result where the source raises ValueError, and a single zero byte is reported where the source drops it; the as-written test is Protocol.MorebytesEntryAsWritten (see Findings).
- Protocol.IPIProtocol.Exchange: uses the corrected morebytes test, as Protocol.IPIProtocol.Calculate above does.
- Protocol.ExchangeAfterPosData: uses the corrected morebytes test, as Protocol.IPIProtocol.Calculate above does.
- Protocol.ServerExchange: uses the corrected morebytes test, as Protocol.IPIProtocol.Calculate above does.
- Server.IPIServer.Calculate: uses the corrected morebytes test, as Protocol.IPIProtocol.Calculate above does.
- Nomad.SystemToAtoms: uses the corrected species clamp (Nomad.Clamped, `>=`), not the `>` of nomad.py:80, so a species equal to the size of the symbol table becomes 0 where the source keeps it; the as-written clamp is Nomad.ClampedAsWritten and Nomad.ClampSpeciesAsWritten (see Findings).
- Nomad.SystemToAtomsShape: uses the corrected species clamp, as Nomad.SystemToAtoms above does.
- Nomad.SectionSystemToAtoms: uses the corrected species clamp, as Nomad.SystemToAtoms above does.
- Nomad.ImageOf: uses the corrected species clamp, as Nomad.SystemToAtoms above does.
- Nomad.ImageOfTags: uses the corrected species clamp, as Nomad.SystemToAtoms above does.
- Nomad.MakeImage: uses the corrected species clamp, as Nomad.SystemToAtoms above does.
- Nomad.DictImages: uses the corrected species clamp, as Nomad.SystemToAtoms above does.
- Nomad.DictImages: a `section_run` that is an empty dictionary or empty string ends with TypeMismatch, where the source yields nothing and ends without an error (see the line on JSON values of the wrong kind above); the same holds for a run's `section_system`.
- Nomad.DictToImages: uses the corrected species clamp, as Nomad.SystemToAtoms above does.
- Server.AcceptAttempt: the poll status carried by a timed-out attempt is not tied to the subprocess's exit code, so a poll may report a status that a later Wait does not return. No contract relates the two.

## Findings

| source | as written | input that shows it | evidently intended | confidence | as-written member | corrected member |
|---|---|---|---|---|---|---|
| ase/nomad.py:80 | `numbers[numbers > len(chemical_symbols)] = 0` keeps a species equal to `len(chemical_symbols)` | a species number equal to the symbol table's length (119): it is kept, and no symbol exists for it | `>=`, so every kept number indexes the symbol table | high, not executed | Nomad.ClampAsWrittenKeepsCount | Nomad.ClampedIndexesSymbols |
| ase/calculators/ipi.py:180 | `if morebytes:` tests the truth of the int8 array that `recv` returned | two extra bytes raise ValueError (the truth value of the array is ambiguous); a single zero byte is dropped | report the extra bytes whenever there are any (`len(morebytes) > 0`) | high, not executed | Protocol.MorebytesAsWrittenDiffers | Protocol.MorebytesEntry |
