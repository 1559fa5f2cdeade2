# Model of the sDDF I2C server, driver and transport

A Dafny model of the I2C stack for the ODROID C4: the driver that compiles token chains into register loads
and dispatches them in pieces, the shared-memory transport between server and driver, the server's side of
it, and the integer and string half of the bundled printf. `dafny verify dfyconfig.toml` checks everything.

## How it is built

| file | models |
|---|---|
| `Tokens.dfy` | token chains: the bus events a chain means, read off its bytes, and its parse into operations |
| `Registers.dfy` | packing tokens, data bytes and the address into 32-bit registers |
| `Loader.dfy` | one pass of the token loader, all passes of a request, and the hardware's list processor |
| `RingBuffer.dfy`, `RingConcurrency.dfy` | the shared ring: as an object, and as interleaved single memory accesses |
| `Memory.dfy` | the buffer region and its pools |
| `BusModel.dfy` | one bus as a value, and what each driver and transport operation does to it |
| `BusRuns.dfy` | a state machine: server, driver and hardware steps of one bus in any order |
| `Behind.dfy` | the byte in memory behind a chain, and what does not depend on it |
| `Conservation.dfy`, `Ordering.dfy`, `Execution.dfy`, `Progress.dfy`, `Invariant.dfy` | what every step keeps, and runs |
| `Outcomes.dfy` | what a finished request did, compared with what it means |
| `BusProperties.dfy`, `Completion.dfy` | properties of all runs; when requests complete, block their bus or crash the driver |
| `Accesses.dfy` | runs in which the server's ring operations are single memory accesses |
| `Sharing.dfy`, `System.dfy` | both buses on the buffer region they share |
| `Transport.dfy`, `Driver.dfy`, `Handlers.dfy` | transport, driver and server as objects with loops and in-place updates on one shared memory, proved against `BusModel.dfy` |
| `Refinement.dfy` | the handlers of those objects are steps of the state machines, and initialisation leaves an initial state |
| `Numerals.dfy`, `PrintfIntegers.dfy`, `PrintfFormat.dfy` | what printf prints, and what that means |
| `PrintfOutput.dfy` | printf as it runs, proved against those |
| `PrintfStandard.dfy`, `PrintfSpecs.dfy` | what the C standard has a conversion print, and exactly when a format prints that |
| `Options.dfy` | an option type |

A request is a byte chain in which a DAT token owns the next byte when the direction is "write". Its meaning
is a list of bus events (START and STOP conditions, address with R/W bit, bytes, NACK; sections 3.1.4, 3.1.5,
3.1.6 and 3.1.10 of NXP UM10204). The loader is compared with that meaning through a model of the list
processor, which decodes the registers the loader has written, stops at END or after sixteen tokens, and
carries the transfer direction from list to list.

The runs of a bus mix these steps freely: the server takes a free buffer, writes and queues a request, pops
and releases return buffers; the driver handles a notification or an interrupt; the hardware performs a list
or a beginning of it. A crash (use of a NULL pointer) is an outcome, not a precondition, and it carries the
state the driver leaves behind: results that speak of where a run stands hold there too.

Assumptions:

- Memory accesses are sequentially consistent. The code puts its release fence behind the index update
  (i2c/include/sw_shared_ringbuffer.h:98-100), which is not enough on weaker memory.
- A driver handler is not interrupted by the server: the driver's protection domain has the higher priority
  (i2c/i2c.system:33 and :57). The server may be interrupted between any two ring operations, and inside each
  between any two accesses (`Accesses.RunSimulates`); the bytes of a request are written when it is published.
- Between two buses the handlers' and the server's accesses to the shared region interleave in any order.
- The hardware interrupts once per started list and never otherwise. An interrupt that is not a timeout and has
  the error bit clear comes when the whole list has been performed. With the error bit, or as a timeout, it may
  come after any beginning of the list; an error names a token other than END. The hardware sees the register
  values the driver wrote.
- `char` is unsigned and `long` has 64 bits, as on AArch64.

## Where the code differs from its documentation or comments

The model follows the code. Each of these is a proved result where a member is named.

- A list takes 16 to 24 bytes of a request, not 16 tokens' worth of an n-token list, so ceil(n/16) lists
  (README.md:57) is the most and ceil(n/24) the least (`Loader.ListCount`).
- END is documented to make further bytes invalid (README.md:83). The driver dispatches behind it, and the
  hardware stops at it only within a list (`Loader.MeaningPreservedExactly`, `Loader.EndDoesNotEnd`).
- A DAT before any address token is loaded by the direction the driver was left with, and performed by the one the
  hardware was left with; after an error they may differ (`Loader.MeaningPreservedExactly`).
- A timeout that reports no error is taken for the end of the list (i2c/i2c-odroid-c4.c:584-607): a request of
  which it cut a list short is returned as a success without having done what it means (`BusProperties.AnswersTrue`).
- The address register is cleared with a mask for bits 0 to 6 while the address is in bits 1 to 7
  (i2c/i2c-odroid-c4.c:354-355), so bit 7 survives: after a request to 0x68 one to 0x24 goes to 0x64
  (`Registers.AddressLeaks`, `BusProperties.AddressSentOverRuns`).
- The comment at i2c/i2c-odroid-c4.c:625 has a deferred notification start the next request. The code returns
  the request in progress and then loads tokens through the request pointer it has just cleared
  (`BusProperties.CrashesExactly`, `BusProperties.DeferredNeverFinishes`). The clock test, which submits twice
  in a row (i2c/i2c.c:28-70), crashes the driver that way when the second notification arrives before the
  first request has ended (`Completion.ClockTestCrashes`). The step `InterruptIntended` is the commented
  behaviour; it is kept apart from the code's, and theorems that say "as written" exclude it. It would be right:
  no such crash, and the deferred request is taken up (`BusProperties.IntendedNeverCrashes`,
  `BusProperties.IntendedTakesUp`).
- `checkBuf` and `i2cirq` ignore a failed load, which blocks the bus for good (`Completion.WedgesExactly`,
  `Completion.FailedLoadWedges`, `Completion.BadAddressWedges`).
- `i2cGetError` is documented to return the read count and the negated token; it returns 0 and the negated
  unshifted field (`Driver.GetErrorExactly`).
- `pushRetBuf` is documented to return 0 on success (i2c/include/i2c-transport.h:112); it and the release
  functions return -1 on success and 0 on failure.
- STOP is 0x6 in the headers and 0x7 in README.md:142.
- printf: `-` makes it ignore an integer precision, a full scratch buffer drops the sign, the alternative form
  takes digits off a number as wide as its field and gives an octal number with a precision one zero too many,
  `%hhd` prints no negative value (`PrintfStandard.IntegerConforms` says exactly which integer conversions are
  those of the C standard), binary output keeps 32 bits, a negative `*` precision counts as zero, the length of a string wraps at 2^32 when its field is
  padded, and so does the returned value that should tell truncation (`PrintfIntegers.PrecisionExactly`,
  `PrintfIntegers.SignExactly`, `PrintfFormat.BinaryRoundTrip`, `PrintfFormat.NegativePrecision`,
  `PrintfFormat.NegativeHidesString`, `PrintfFormat.NegativeChangesNumber`, `PrintfFormat.StringField`,
  `PrintfOutput.CompleteExactly`).

## Model

| member | source | states |
|---|---|---|
| Tokens.ParseMeaning | README.md:79-89 | the operations a chain parses into mean exactly the events its bytes mean, plus a write of the byte behind the chain when the last payload is missing and no END came before |
| Tokens.ParseEncode | i2c/i2c-odroid-c4.c:386-446 | writing the parsed operations back gives the chain |
| Tokens.DirectionIrrelevant | i2c/i2c-odroid-c4.c:398-405 | until an address token, the direction left over from an earlier request has no influence |
| Registers.PackUnpackTokens | i2c/i2c-odroid-c4.c:82-92 | the dump's extraction of nibble k gives the k-th loaded token, END in unused positions |
| Registers.PackUnpackData | i2c/i2c-odroid-c4.c:94-106 | the dump's extraction of byte j gives the j-th payload, zero in unused positions |
| Registers.PackOneToken | i2c/i2c-odroid-c4.c:420-433 | ORing a token in leaves every other token field alone |
| Registers.PackOneData | i2c/i2c-odroid-c4.c:434-443 | ORing a data byte in leaves every other data byte alone |
| Registers.AddressSentExactly | i2c/i2c-odroid-c4.c:352-355 | bits 1 to 7 are the address loaded if and only if bit 7 was clear or the address is 0x40 or more |
| Registers.TopBitSticks | i2c/i2c-odroid-c4.c:352-355 | bit 7, once set, is never cleared by loading an address |
| Registers.AddressIdempotent | i2c/i2c-odroid-c4.c:352-355 | loading the address again for a later list of the request changes nothing |
| Registers.AddressKeepsFields | i2c/i2c-odroid-c4.c:352-355 | the filter and delay fields keep their values |
| Registers.AddressLeaks | i2c/i2c-odroid-c4.c:354-355 | 0x68 followed by 0x24 is sent as 0x64 |
| Loader.ChunkSize | i2c/i2c-odroid-c4.c:372-446 | a load that succeeds advances by 16 to 24 bytes |
| Loader.ListCount | README.md:57 | n bytes take between ceil(n/24) and ceil(n/16) lists, 0 bytes take one |
| Loader.LoadStops | i2c/i2c-odroid-c4.c:370-449 | a load of known tokens succeeds and stops on a token boundary, with the parse's direction there |
| Loader.LoadTakes | i2c/i2c-odroid-c4.c:370-449 | a load holds exactly the next operations of the parse, then END padding once the request is used up |
| Loader.LoadsExactly | i2c/i2c-odroid-c4.c:363-446 | a load succeeds if and only if all tokens from its offset on are known, or sixteen operations or eight payloads come before the first unknown one |
| Loader.QuietLists | i2c/i2c-odroid-c4.c:337-458 | every list behind the first END begins with END if and only if the walk over the bytes says so |
| Loader.HwFollows | i2c/i2c-odroid-c4.c:297-306 | the list processor performs the events of the packed operations and ends with their direction |
| Loader.ListPerforms | i2c/i2c-odroid-c4.c:337-458 | one list performs its operations even when driver and hardware start with different directions, provided an address comes first; they agree afterwards |
| Loader.MeaningPreserved | i2c/i2c-odroid-c4.c:337-458 | for every well-formed request and any left-over directions, all lists together perform what the request means |
| Loader.MeaningPreservedExactly | i2c/i2c-odroid-c4.c:337-458 | for any chain of known tokens and any left-over directions that holds if and only if, walking its bytes with the two capacity counters, the byte at which a full list behind an END is continued is END, there is an END or no missing payload, and the directions agree or an address token or END comes before the first DAT, if there is one |
| Loader.HwAt | i2c/i2c-odroid-c4.c:398-405 | otherwise the hardware does at the first DAT what its own direction says |
| Loader.EndDoesNotEnd | README.md:83 | sixteen ENDs and a START mean nothing but perform a START |
| Registers.FieldsLaidOut | i2c/i2c-odroid-c4.c:82-106 | token k is bits 4(k mod 8) to 4(k mod 8)+3 of its token register, byte j bits 8(j mod 4) to 8(j mod 4)+7 of its data register, for all sixteen and all eight |
| Loader.RegistersOf | i2c/i2c-odroid-c4.c:386-446 | after a load of known tokens, token n of the registers is 4 if the n-th token byte from the offset on is 7 and that byte itself otherwise, and 0 behind the list and behind the chain; data byte j is the j-th payload, and 0 behind the list |
| Loader.ListRegisters | i2c/include/odroidc4-i2c-mem.h:49-57 | so in every list of a known chain; behind the chain the tokens are 0 |
| Loader.ResumeOnBoundaries | i2c/i2c-odroid-c4.c:370-449 | every resume offset is a token boundary of the request's parse with the parse's direction |
| Loader.RoundTrip | i2c/i2c-odroid-c4.c:370-449 | a well-formed request can be rebuilt from its register loads and its length |
| RingBuffer.RingMemory.Tests | i2c/include/sw_shared_ringbuffer.h:57-72 | the index tests mean empty and full, although they look at the difference modulo 512 only |
| RingBuffer.RingMemory.PublishAppends | i2c/include/sw_shared_ringbuffer.h:96-98 | publishing appends the stored descriptor, also when an index wraps at 2^32 |
| RingBuffer.RingMemory.ConsumeRemoves | i2c/include/sw_shared_ringbuffer.h:121-125 | consuming removes the first descriptor, also when an index wraps |
| RingBuffer.Ring.Init | i2c/sw_shared_ringbuffer.c:13-18 | initialisation empties the ring |
| RingBuffer.Ring.IsEmpty | i2c/include/sw_shared_ringbuffer.h:57-60 | the test tells whether the queue is empty |
| RingBuffer.Ring.Enqueue | i2c/include/sw_shared_ringbuffer.h:89-103 | appends, or refuses with -1 exactly when 511 descriptors are queued |
| RingBuffer.Ring.Dequeue | i2c/include/sw_shared_ringbuffer.h:114-128 | removes and returns the first, or refuses with -1 exactly when empty |
| RingConcurrency.SlotsApart | i2c/include/sw_shared_ringbuffer.h:89-128 | a slot being written is never the slot being read |
| RingConcurrency.StepRefines | i2c/include/sw_shared_ringbuffer.h:89-128 | every single memory access of either side is a step, or no step, of a queue of capacity 511 |
| RingConcurrency.RunRefines | i2c/include/sw_shared_ringbuffer.h:89-128 | under every interleaving the callers see a run of that queue |
| RingConcurrency.RunConserves | i2c/include/sw_shared_ringbuffer.h:89-128 | what came out, then what is inside, is what was inside, then what went in |
| Memory.BuffersApart | i2c/i2c-transport.c:56-63 | different buffers of a bus do not overlap |
| Memory.PoolBag | i2c/i2c-transport.c:56-63 | initialisation queues each buffer of a pool once |
| BusRuns.StepShaped | i2c/i2c-transport.c:68-283 | every step keeps descriptors, pointers and lengths well-placed |
| Conservation.NoRingOverflows | i2c/i2c-transport.c:105-110 | in a state that conserves buffers, a ring about to receive one holds at most 510 |
| Conservation.StepConserves | i2c/i2c-transport.c:68-283 | every step keeps every buffer in exactly one place of its own pool |
| Ordering.StepOrdered | i2c/i2c-odroid-c4.c:479-634 | every step keeps the order of requests and headers, and their bytes |
| Execution.StepExecuted | i2c/i2c-odroid-c4.c:337-634 | every step keeps the record of what the hardware has done in line with the lists of the request, for every chain of known tokens and whatever byte is behind it; once a list was cut short less has been done than they hold |
| Behind.ListsBefore | i2c/i2c-odroid-c4.c:434-443 | the lists up to one that does not finish the chain do not depend on the byte behind it |
| Outcomes.KnownOutcome | i2c/i2c-odroid-c4.c:562-634 | a request of known tokens, not cut short, that succeeded did what it means if and only if its bytes and the directions at its start say so |
| Outcomes.WellFormedOutcome | i2c/i2c-odroid-c4.c:584-607 | a well-formed request that succeeded did what it means if and only if no timeout cut a list of it short, and less otherwise |
| Progress.StepProgress | i2c/i2c-odroid-c4.c:337-634 | every step keeps the driver at the list its interrupts have brought it to, the hardware running exactly if that list could be loaded |
| Invariant.StepInv | i2c/i2c-odroid-c4.c:479-634 | every step that does not crash keeps the invariant of the bus: conservation, order, the record of what the hardware did, and progress |
| Invariant.RunInv | i2c/i2c-odroid-c4.c:479-634 | so does every run, whatever the schedule |
| Invariant.RunCore | i2c/i2c-odroid-c4.c:479-634 | a run that ends in a crash leaves a state that satisfies it too, once what the driver had popped is put back |
| Invariant.InitialInv | i2c/i2c-odroid-c4.c:462-474 | initialisation establishes it |
| BusProperties.ExactlyOnceInOrder | i2c/i2c-odroid-c4.c:479-623 | wherever a run stands, also after a crash, the submitted requests are the finished ones, the current one, what a crashed driver had popped, and the queued ones, in order and intact; the headers handed back or waiting are those of the finished ones, with their client, address, error code, error token and size |
| BusProperties.RunKeepsBase | i2c/i2c-transport.c:56-63 | no run moves a bus's buffers |
| BusProperties.EachBufferOnce | i2c/i2c-transport.c:56-283 | wherever a run stands, also after a crash, each request and return buffer given to a bus is in exactly one place, and nothing else is anywhere |
| BusProperties.NoEnqueueFails | i2c/i2c-transport.c:105-110 | wherever a run stands, also after a crash, all enqueues after initialisation find room, so the rollback is never taken |
| BusProperties.SingleProducers | i2c/i2c-transport.c:68-283 | only the server appends to the used request and the free return ring and only it takes from the other two; only the driver does the converse |
| BusProperties.ReturnBufferMissingExactly | i2c/i2c-odroid-c4.c:502-511 | in every run `checkBuf` finds no return buffer if and only if 511 returned ones are not yet released |
| BusProperties.CreditBound | i2c/i2c-odroid-c4.c:487-511 | with at most 511 requests outstanding no run writes through a missing return buffer |
| BusProperties.FinishedRequestsMean | i2c/i2c-odroid-c4.c:562-634 | wherever a run stands, also after a crash, a well-formed request returned as a success did exactly what it means if and only if no timeout without an error cut a list of it short; one returned as failed did a beginning of that, if none did |
| BusProperties.FinishedKnownMean | i2c/i2c-odroid-c4.c:562-634 | the same for every chain of known tokens: a success that was not cut short did what the chain means if and only if its bytes and the directions it started with say so |
| BusProperties.NothingCut | i2c/i2c-odroid-c4.c:584-607 | in a run without timeouts that report no error no request is cut short |
| BusProperties.AnswersTrue | i2c/i2c-odroid-c4.c:479-634 | wherever a run stands, also after a crash, the k-th answer the server collects is for the k-th request submitted and carries its client, its address and the size of its chain; its error byte is 0 if the interrupt that ended the request had bit 3 or all of bits 4 to 7 clear, else 1 if that was a timeout and 2 if not; its token byte is bits 4 to 7 then, and 0 on success; for a well-formed request success is the truth if and only if no timeout without an error cut a list short |
| BusProperties.AddressSentOverRuns | i2c/i2c-odroid-c4.c:352-355 | in every run the k-th request went to the address it asked for if and only if that has its top bit set, or bit 7 of the register was clear in the initial state and no earlier request asked for 0x40 or more |
| BusProperties.DriverRecord | i2c/i2c-odroid-c4.c:511-523 | in every run: current request and return buffer come and go together, idle means nothing left, lengths stay within 510, and the return buffer in hand carries the request's client and address, and will have its size |
| BusProperties.CrashesExactly | i2c/i2c-odroid-c4.c:607-632 | an interrupt crashes the driver if and only if it ends a request during which a notification was deferred |
| BusProperties.DeferredExactly | i2c/i2c-odroid-c4.c:484-493 | a notification is deferred if and only if it finds the bus busy and another request queued |
| BusProperties.DeferredNeverFinishes | i2c/i2c-odroid-c4.c:614-632 | once a notification was deferred, a run of the code as written either goes on without finishing a request on that bus, or returns exactly the request in progress and crashes in doing so |
| BusProperties.ServerGoesOn | i2c/i2c-transport.c:68-283 | behind either crash the server's own steps go on, keep everything conserved and in order with what the driver had popped put back, and finish no request |
| BusProperties.UndeferredNeverCrashes | i2c/i2c-odroid-c4.c:625-632 | if no notification finds the bus busy with another request queued, no run loads through the cleared pointer |
| BusProperties.IntendedNeverCrashes | i2c/i2c-odroid-c4.c:625 | with the handler the comment describes no run loads through the cleared pointer |
| BusProperties.IntendedTakesUp | i2c/i2c-odroid-c4.c:625 | with it the interrupt that ends a request returns it and takes up the one whose notification was deferred, unless a return buffer is missing |
| Completion.StartsExactly | i2c/i2c-odroid-c4.c:344-347 | taking up a request starts the hardware if and only if its address has seven bits and its bytes hold no unknown token before sixteen operations or eight payloads |
| Completion.WhereItIs | i2c/i2c-odroid-c4.c:337-634 | a request in progress has its hardware running unless it is bad and has come to the list it stops at; nothing remains exactly at that list |
| Completion.RunGoesOn | i2c/i2c-odroid-c4.c:562-634 | every clean interrupt brings a request one list further, whatever happens in between, until the last list of a good one or the list a bad one stops at |
| Completion.CompletesExactly | i2c/i2c-odroid-c4.c:562-634 | a good request is returned as a success by the error-free interrupt that makes up the number of its lists, and by no earlier one; if it is well-formed it has done what it means, if and only if no timeout cut a list short |
| Completion.RequestCompletes | README.md:57 | from acceptance, a well-formed request with a seven-bit address takes exactly that many error-free interrupts, between ceil(n/24) and ceil(n/16); if none is a timeout it has done what it means |
| Completion.WedgesExactly | i2c/i2c-odroid-c4.c:529-632 | given as many clean interrupts as it has lists, a request is never returned if and only if its address has eight bits or its chain holds an unknown token |
| Completion.FailedLoadWedges | i2c/i2c-odroid-c4.c:529-531 | once a load has failed no run returns a request on that bus again, and none crashes |
| Completion.BadAddressWedges | i2c/i2c-odroid-c4.c:344-347 | from initialisation, one request to address 0x80 blocks its bus in every run |
| Completion.SecondSubmissionCrashes | i2c/i2c.c:116-123 | submitting and notifying again before a request has ended crashes the driver when it ends |
| Completion.ClockTestCrashes | i2c/i2c.c:28-70 | from initialisation, the two requests of the clock test: the clean interrupt of the first returns it as a success and crashes the driver |
| Accesses.ServerSimulates | i2c/include/sw_shared_ringbuffer.h:89-128 | every single access of a ring operation of the server is one step of the runs, or none, and what it read from memory is what that step takes |
| Accesses.DriverSimulates | i2c/i2c-odroid-c4.c:479-634 | a handler of the driver between two accesses of the server is that handler's step, and leaves the server's operation intact |
| Accesses.RunSimulates | i2c/include/sw_shared_ringbuffer.h:89-128 | under every schedule of single accesses and handlers the bus, its history and its crash are those of a run whose ring operations are single steps |
| Accesses.AccessesStand | i2c/include/sw_shared_ringbuffer.h:89-128 | so wherever such a schedule brings the bus from initialisation, a run stands, and what is proved of runs holds |
| System.BuffersLaidOut | i2c/i2c.system:24 | the 2044 buffers are disjoint and inside the 2 MiB region |
| System.BuffersAtFirst | i2c/i2c-transport.c:56-63 | in an initial state buffer k of 512 bytes is in the free ring of requests of bus 2 for k below 511, of its return buffers below 1022, of requests of bus 3 below 1533, and of its return buffers below 2044, in this order |
| System.BuffersArePools | i2c/i2c-transport.c:56-63 | they are the four pools, and no address belongs to two |
| Sharing.StoreInPart | i2c/i2c-transport.c:56-63 | storing at an absolute address in a bus's part of the region is storing in that part alone, and changes nothing around it |
| Sharing.StepOwn | i2c/i2c-odroid-c4.c:479-634 | every step of a bus on the shared region does to its own part, its rings and its state what it would do if that part were all memory, and leaves the rest of the region as it was |
| System.StepOfOne | i2c/i2c-odroid-c4.c:479-634 | so a step of one bus in the system leaves the other bus's buffers, rings and state alone |
| System.BusesIndependent | i2c/i2c-odroid-c4.c:544-555 | a run of the system on the shared region is on each bus a run of that bus alone, of its own steps and the notifications it sees; a crash is one of the bus it belongs to, and the other has not noticed |
| System.RunsExactly | i2c/i2c-odroid-c4.c:544-555 | the system runs on if and only if both buses do on their own |
| System.InterleavingIrrelevant | README.md:55 | how the buses' reads and writes of the shared region interleave matters to neither bus |
| System.ChecksCommute | i2c/i2c-odroid-c4.c:552-554 | the two `checkBuf` calls commute; if a bus lacks a return buffer either order brings the driver down, on the first such bus in that order |
| System.EveryBufferOnce | i2c/i2c-transport.c:56-283 | wherever a run of the system stands, also after a crash, each of the 2044 buffers is in exactly one place of both buses together |
| System.EveryRequestOnce | i2c/i2c-odroid-c4.c:479-634 | wherever a run of the system stands, also after a crash, each request of each bus is finished, current, popped or queued, once and in order |
| Transport.Channel.FreeOne | i2c/i2c-transport.c:56-63 | one turn of the initialisation loop frees the next buffer of both pools of a bus |
| Transport.Channel.AllocReqBuf | i2c/i2c-transport.c:68-113 | writes header and data into a free buffer and queues it; 0 exactly when too long, none free or no room |
| Transport.Channel.GetRetBuf | i2c/i2c-transport.c:115-138 | takes the next free return buffer, or returns 0 |
| Transport.Channel.PushRetBuf | i2c/i2c-transport.c:140-163 | queues a return buffer, -1 on success |
| Transport.Channel.PopReqBuf | i2c/i2c-transport.c:165-188 | takes the next request and its size, or returns 0 |
| Transport.Channel.PopRetBuf | i2c/i2c-transport.c:190-204 | takes the next return buffer, or returns 0 |
| Transport.Channel.ReleaseReqBuf | i2c/i2c-transport.c:236-259 | frees a request buffer, -1 on success |
| Transport.Channel.ReleaseRetBuf | i2c/i2c-transport.c:261-283 | frees a return buffer, -1 on success |
| Driver.GetErrorExactly | i2c/i2c-odroid-c4.c:283-295 | minus bits 4 to 7 when bit 3 is set, and 0 otherwise; an error is seen exactly when bit 3 is set and bits 4 to 7 are not all clear; a read count or NOREAD never is |
| Driver.Interface.SetAddress | i2c/i2c-odroid-c4.c:352-355 | loads the address with the code's mask |
| Driver.Interface.PutOp | i2c/i2c-odroid-c4.c:420-443 | ORs one operation's token and data byte into the registers: they become the packing of one more operation |
| Driver.BusDriver.Translate | i2c/i2c-odroid-c4.c:388-416 | translates the known tokens to the codes whose numbers `Loader.RegistersOf` states, follows the direction, refuses all others |
| Driver.BusDriver.LoadList | i2c/i2c-odroid-c4.c:363-446 | the loop fills the registers with the packing of the specified load, and stops where it stops |
| Driver.BusDriver.StartList | i2c/i2c-odroid-c4.c:363-458 | fills the interface for the list at the current offset and starts it, unless a token is bad |
| Driver.BusDriver.I2cLoadTokens | i2c/i2c-odroid-c4.c:337-458 | loads the next list and starts the hardware, or -1 exactly for a bad address or token |
| Driver.BusDriver.CheckBuf | i2c/i2c-odroid-c4.c:479-537 | takes up the next request, defers, or resets the flag; reports the NULL return buffer, the request having been popped |
| Driver.BusDriver.I2cIrq | i2c/i2c-odroid-c4.c:562-634 | reports the outcome, ends or continues the request; reports the NULL request, the one in progress having been returned |
| Handlers.I2cDriver.ServerNotify | i2c/i2c-odroid-c4.c:544-555 | checks bus 2, and, unless that faults, bus 3 on the memory it leaves; both buses afterwards, faults included |
| Handlers.I2cDriver.Notified | i2c/i2c-odroid-c4.c:638-661 | an event reaches exactly the bus its channel belongs to, and of the other at most memory changes |
| Handlers.I2cServer.TransportInit | i2c/i2c-transport.c:40-65 | all four free rings are filled to capacity, each with exactly its own pool, all used rings are empty |
| Handlers.I2cServer.AllocReqBuf | i2c/i2c-transport.c:68-113 | reaches exactly the bus named, 0 for any other bus; of the other bus at most memory changes |
| Handlers.I2cServer.DriverNotify | i2c/i2c.c:233-262 | takes, reads and releases one return buffer of each bus that has one |
| Refinement.AllocIsSteps | i2c/i2c-transport.c:68-113 | `allocReqBuf` is two steps of the runs |
| Refinement.AllocFailsExactly | i2c/i2c-transport.c:68-113 | in reachable states it fails if and only if the data is too long or no buffer is free |
| Refinement.CollectIsSteps | i2c/i2c.c:237-261 | `driverNotify` on a bus is two steps of the runs, and the error code, error token, client, address and size it reads are those of the header they hand back |
| Refinement.NotifyIsSystemStep | i2c/i2c-odroid-c4.c:544-555 | the driver's handler of a notification does to both buses what the step of the system does, and faults exactly when that brings the driver down |
| Refinement.InterruptIsSystemStep | i2c/i2c-odroid-c4.c:638-661 | so does its handler of an interrupt: channels 2 and 3 are the clean interrupt and the timeout of bus 2, 4 and 5 those of bus 3 |
| Refinement.OneBusRuns | i2c/i2c-transport.c:68-283 | a run of the system in which one bus acts is that bus's run on the shared memory |
| Refinement.AllocIsSystemRun | i2c/i2c-transport.c:68-113 | what `allocReqBuf` is proved to do to both channels is a run of the system |
| Refinement.CollectIsSystemRun | i2c/i2c.c:237-261 | and so is one turn of `driverNotify` |
| Refinement.Boot | i2c/i2c-transport.c:40-65 | the driver's `init` followed by the server's leaves an initial state of the system |
| Numerals.DigitsValue | i2c/printf.c:291-297 | the conversion loop keeps the value modulo base^32 |
| PrintfIntegers.ScratchFits | i2c/printf.c:227-277 | whatever the flags, the 32-byte scratch buffer is not overrun |
| PrintfIntegers.FieldWidthExactly | i2c/printf.c:199-277 | a field is as wide as asked for or needed if and only if that fits 32 characters or spaces do the padding of a number that leaves room for them |
| PrintfIntegers.PrecisionExactly | i2c/printf.c:230-237 | there are as many digits as the precision asks for if and only if the number has them, or `-` is not given and they fit |
| PrintfIntegers.SignExactly | i2c/printf.c:264-274 | a sign is dropped if and only if digits and zeros fill the scratch buffer |
| PrintfIntegers.ReadBack | i2c/printf.c:199-301 | reading the output back gives the value modulo base^32, and the sign if it was printed |
| PrintfIntegers.ReadBackExactly | i2c/printf.c:199-301 | it gives the value if and only if that is below base^32 |
| PrintfFormat.AtoiValue | i2c/printf.c:188-195 | a width or precision is the decimal number written, modulo 2^32 |
| PrintfFormat.IntegerRoundTrip | i2c/printf.c:678-747 | %d, %i, %u, %o, %x and %X in any length: the value can be read back in base 10, 8 or 16, its minus sign if and only if the scratch buffer leaves room |
| PrintfFormat.BinaryRoundTrip | i2c/printf.c:678-747 | %b gives the value modulo 2^32 |
| PrintfFormat.StringField | i2c/printf.c:796-820 | %s shows the string up to the precision; the field is exactly max(width, min(length, precision)) wide if and only if a precision is given, the string has less than 2^32 characters, or the width is at most what the length wraps to; otherwise it is too wide by a stated amount |
| PrintfFormat.NegativePrecision | i2c/printf.c:639-643 | for every directive, a negative `*` precision does what 0 does, and differs from none only in being given |
| PrintfFormat.NegativeHidesString | i2c/printf.c:796-820 | so %s shows nothing of the string; that is the standard's output if and only if the string is blank and within the field |
| PrintfFormat.NegativeChangesNumber | i2c/printf.c:678-747 | an integer conversion without the alternative form prints what the standard says if and only if the number is not zero and no zeros were to fill its field |
| PrintfStandard.ArgumentExactly | i2c/printf.c:719-747 | an argument converted to the type its length names is in that type's range, and is itself if and only if it was |
| PrintfStandard.ArgumentRead | i2c/printf.c:719-747 | the code reads the argument as that, but for a negative `%hhd`, which it reads 256 higher |
| PrintfStandard.DigitsWritten | i2c/printf.c:291-297 | the digits made backwards are, read forwards, the number written most significant digit first with the digits 0123456789abcdef, or upper-case ones |
| PrintfStandard.IntegerConforms | i2c/printf.c:684-747 | for all flags, widths, precisions, lengths and values, %d, %i, %u, %o, %x and %X print what section 7.21.6.1 of C11 says if and only if a stated condition on them holds: zeros fill at most 32 characters, `-` comes with no zeros to add, sign, prefix and precision fit 32 characters, the alternative form is not in a field as wide as its digits, and %hhd is not negative |
| PrintfStandard.BinaryConforms | i2c/printf.c:684-747 | %b without width and precision prints the binary digits, behind 0b in the alternative form unless zero, if and only if the value is below 2^32, or 2^30 with the prefix |
| PrintfSpecs.FlagsParsed | i2c/printf.c:601-612 | a run of flag characters sets exactly the flags whose characters occur in it, and parsing ends behind it |
| PrintfSpecs.SpecParsed | i2c/printf.c:601-680 | flags, width, precision, length and conversion written behind % are parsed as what they say, whatever follows |
| PrintfSpecs.FormatInteger | i2c/printf.c:587-747 | an integer conversion in a format prints the standard's field in front of what the rest prints if and only if it meets the condition of `PrintfStandard.IntegerConforms` |
| PrintfSpecs.FormatString | i2c/printf.c:796-820 | so does %s, with the string up to the precision, if and only if a precision or less than 2^32 characters bound it, or the width is no more than its length modulo 2^32 |
| PrintfSpecs.FormatChar | i2c/printf.c:776-794 | %c prints its argument modulo 256 on its side of the field |
| PrintfSpecs.FormatPercent | i2c/printf.c:840-843 | %% prints one % |
| PrintfSpecs.FormatPlain | i2c/printf.c:589-595 | text without % prints itself in front of what the rest prints |
| PrintfSpecs.FormatItself | i2c/printf.c:587-595 | a format without % prints itself |
| PrintfSpecs.StarWidth | i2c/printf.c:616-629 | a width given as an argument does what its number written out does, and a negative one what that does with the flag `-` |
| PrintfSpecs.StarPrecise | i2c/printf.c:632-644 | a precision given as an argument does what its number written out does, and a negative one what 0 does |
| PrintfOutput.OutRev | i2c/printf.c:199-223 | outputs the scratch buffer backwards in its field |
| PrintfOutput.NtoaFormat | i2c/printf.c:227-277 | zeros, prefix and sign as specified, in place |
| PrintfOutput.NtoaLong | i2c/printf.c:281-301 | outputs the specified text of the number |
| PrintfOutput.StrnlenS | i2c/printf.c:171-176 | the length, at most the limit, modulo 2^32 |
| PrintfOutput.AtoiAdvance | i2c/printf.c:188-195 | the number, and the pointer behind it |
| PrintfOutput.OutFormat | i2c/printf.c:577-851 | the whole text is output, whatever the room |
| PrintfOutput.Vsnprintf | i2c/printf.c:577-857 | the returned value does not depend on `count`; the buffer gets as much of the same text as fits, a terminator, and keeps the rest; `count` 0 writes nothing |
| PrintfOutput.TruncationIndependent | i2c/include/printf.h:81-83 | the string left is the first min(length, count - 1) characters; nothing at or behind `count` changes |
| PrintfOutput.CompleteExactly | i2c/include/printf.h:81-83 | for every length, the test "0 <= returned < count" for a complete output is right if and only if the text has less than 2^31 characters, or fits and its length modulo 2^32 is below 2^31, or does not fit and that is at least min(2^31, count) |

## Left out

- `setupi2c`, GPIO, clock and pin setup, `i2cHalt`/`i2cStart` read-back, cache and fence instructions, and all
  seL4 calls. Starting is a flag that hands the registers to the hardware, a notification or interrupt a step.
- Read data: `i2cGetError` never returns a positive count, so the copy loop at i2c/i2c-odroid-c4.c:597-604 never runs.
- The security lists, `protected`, clients, and the `DAT(X)` token of README.md:90: not implemented in the code.
- Liveness: notifications are not counted, and one notification takes up at most one request per bus.
- Transport.Channel.AllocReqBuf: ring descriptors are natural numbers.
- Transport.Channel.PopRetBuf: that a size is written through a pointer of another type is not modelled.
- Driver.BusDriver.I2cIrq: the other fields of the control register are read once, as its parameter; the notification of the server is not modelled.
- Handlers.I2cServer.DriverNotify: what it prints is returned as values.
- RingConcurrency.RunRefines: weak memory is not modelled.
- Accesses.RunSimulates: the driver's own accesses are not interleaved with the server's, because its handlers are not interrupted; the rollback of `allocReqBuf`, which runs never reach, has no accesses of its own.
- `driver_dequeue`: a duplicate of `dequeue`.
- `ring_size`: unused by the code.
- printf's floating point conversions and `%p`, the output functions other than a buffer or none, and reading
  arguments off the stack: arguments are a typed list, and a format whose arguments do not match is outside the model.
- PrintfFormat.IntegerRoundTrip: not stated for the alternative form (`#`), which takes digits off; its exact output is compared with the standard's by `PrintfStandard.IntegerConforms`.
- PrintfSpecs.SpecParsed: widths and precisions are numbers without leading zeros below 2^32; others are read as `PrintfFormat.AtoiValue` says.
- PrintfOutput.Vsnprintf: the character count is unbounded where the code's `size_t` wraps at 2^64; a format that ends inside a conversion, where the code steps past the terminator, is excluded.
- The `test` functions, the Arduino sketch and the build.
