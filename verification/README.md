# Chat system verification

This project models a small chat system, a C++ server and an Android client that talk JSON over TCP, and
proves properties of it. Three parts of the system are covered.

**Time and duration arithmetic** (`server/lib/include/chrono_io`). Every message carries a timestamp that this
file prints and parses. The model covers `round`, `__gcd`, the unit names, reading and printing durations,
and printing and parsing `system_clock` time points. `timegm` is the formula of section 4.16 of the POSIX.1-2017
Base Definitions; `gmtime_r` is an algorithm that finds year, month and day, proved inverse to the formula. The
two places where the code goes through a `double` are parameters with an error bound (`Timestamp.Sound`).

**The chat as a distributed protocol.** The server's handlers and event loop, any number of clients with a UI
thread, a reader thread and background send tasks, and a pair of first-in first-out channels per connection. A
run is any sequence of steps (`Protocol.Step`); `ProtocolLaws.Run` is the state after it, and the laws hold for
every run. The client's `login` is cut at every line where its reader can come in between. Connections can fail
at any time: `recv` and `write` errors, ends of stream, and requests written by something that is not the
client are all steps.

**Codec, visitors, sockets and waiter.** The five message types as property trees, dispatch by type tag on both
sides, the clean-up of received text, and one `wait` of the waiter.

## How it is put together

Code that changes things in place is modelled as classes and loops: `Networking.Socket`, `Networking.FlexWaiter`,
`ChatServer.Server`, `Visitors.RequestVisitor`, `ClientApp.MainActivity`, `ClientApp.NetworkingConnection`. Their
methods are proved against the protocol's pure steps: each server handler leaves the object in the state that the
step of the same meaning gives (`ChatServer.Server.Shows` ties the two together), the server's loop goes turn by turn
through the states of one run of the protocol, and the client's `login` is proved to be its five steps with any steps
of the other threads in between. The laws are then proved about runs. In a run it is a choice of the step whether the
client can decode a reply; `ClientMessages.ClientSeesReplies` says which of the server's replies it can.

| modules | content |
|---|---|
| Decimal, Calendar, Rounding | digits, POSIX time, rounding to even |
| Timestamp, TimestampLaws, StampGrammar, ClientTime | time points: printer, readers and the texts they accept, and what they do to each other |
| NumberTheory, DurationArithmetic, DurationText | common divisors, rescaling in 64 bits, duration text |
| Messages, Visitors, JsonText | trees, codec, dispatch, text clean-up |
| Networking, ServerCore, ChatServer | sockets, waiter, the server's state and object |
| ClientMessages, WireText | trees as the client writes and takes them; texts and trees written out |
| ClientCore, ClientApp | the client's steps and objects |
| Protocol, ProtocolInvariants, ProtocolChannels, ProtocolClients, ProtocolReplies, ProtocolOwners | the whole system and what every step of it keeps |
| ProtocolLaws, ProtocolFaults, ProtocolNaming, ProtocolTraffic | what holds in every run |

## What the proofs found

The model follows the code where intent and code differ. Each of these is a theorem.

* The command "exit" removes only every other socket: the loop erases the element at an index that it then
  increments (`ServerCore.ExitKeepsOddPositions`). It drops all sockets only if there is at most one.
* Line 126 of `MainActivity.java` can overwrite the logged-in state that the reader has just set
  (`ClientCore.OverwriteExample`). In every run and every continuation the client is locked out exactly if a login
  response bearing its name had been checked when that line ran, and otherwise logged in exactly from when one is checked
  (`ClientApp.LoginOutcome`, `ProtocolLaws.LoginDecides`). A client that is locked out stays so for ever
  (`ProtocolLaws.OverwriteIsForever`) while its name stays taken (`ProtocolLaws.NamesAreLogins`).
* A client takes the first login response bearing its name for its own. Two clients that choose one name can so be logged in
  together, the one by the response to the other (`ProtocolNaming.TwoUnderOneName`). The response answers a client of that
  name in every run in which only clients write; it answers the client itself if and only if it was asked for on the
  client's own connection, and always if no other client uses the name (`ProtocolNaming.WhoseLogin`).
* One failed `recv` leaves its socket closed in both registries, and the next request that the server answers, whoever makes
  it, ends the server (`ProtocolFaults.OneErrorEndsServer`). A server ends exactly when it answers a request with a closed
  socket in its list (`ProtocolFaults.StepCrashesExactly`).
* The server does not check that the sender of a message is logged in. Messages follow logins exactly in the runs in
  which that check would have passed for every message read (`ProtocolLaws.CausalExactly`). The guard in `onMsgSend` makes
  it pass (`ProtocolLaws.ClientsGuardRun`); a single request from another program breaks it
  (`ProtocolLaws.OutsiderBreaksCausality`).
* The client cannot read every timestamp that the server prints. It takes a reply exactly if the printed seconds have two
  digits before the point and are below sixty (`ClientTime.ClientReadsServer`); a reply stamped in the last half microsecond
  before ten seconds or before a full minute ends it (`ClientTime.UnreadableInstants`).
* An error reply is broadcast to everyone and is of a type that no client's dispatch accepts
  (`ClientMessages.ClientSeesReplies`); a client that receives one stops.
* Reading a duration refuses some exact results if the unit is not written in lowest terms, such as `2 [2/4]s`
  (`DurationArithmetic.UnreducedUnitRefused`; the exact condition is `DurationArithmetic.StoresExactly`).
* `round` drops the fraction of a negative duration; it is right there only for fractions below a half, or of a half
  over an even number (`Rounding.RoundBelowZero`).
* Seconds just below ten or sixty print as `010.000000` and `60.000000` (`TimestampLaws.SecondsForms`). The
  server's parser reads both back, the client's neither.
* The clean-up before parsing recovers a document from what follows it exactly if the text after the document's newline
  has no closing brace before a later newline (`JsonText.CleanRecovers`).
* The error for a badly defined object cannot occur: a missing property is an exception instead
  (`Visitors.OutcomeByShape`).

## Model

| member | source | states |
|---|---|---|
| `Rounding.Round` | server/lib/include/chrono_io:148-167 | for every duration not below zero, the nearest integer with ties to even |
| `Rounding.NearestIsUnique` | server/lib/include/chrono_io:148-167 | "nearest, ties to even" has exactly one answer |
| `Rounding.RoundBelowZero` | server/lib/include/chrono_io:148-167 | below zero the answer is the nearest integer if and only if the dropped fraction is under a half, or a half over an even count |
| `Rounding.AbsorbsError` | server/lib/include/chrono_io:1119-1120 | any error under half a unit in the parsed seconds is absorbed by the rounding |
| `Calendar.GmtimeThenTimegm` | server/lib/include/chrono_io:979-980 | the broken-down time of an instant is a valid date and denotes that instant under the POSIX formula |
| `Calendar.TimegmThenGmtime` | server/lib/include/chrono_io:1117-1118 | every valid date from 1970 on comes back from the instant it denotes |
| `Calendar.TimegmMonotone` | server/lib/include/chrono_io:1117-1118 | the earlier date, compared field by field, denotes the earlier instant |
| `Calendar.GmtimeMonotone` | server/lib/include/chrono_io:979-980 | later instants have later dates |
| `Calendar.FourDigitYear` | server/lib/include/chrono_io:987-990 | the instants before the bound are exactly those whose year has four digits |
| `Calendar.MonthLengths` | server/lib/include/chrono_io:979-980 | the months have the Gregorian lengths: 30 days exactly for April, June, September and November, 28 or 29 for February, 31 for the others |
| `Calendar.GregorianYears` | server/lib/include/chrono_io:1117-1118 | the formula gives a year 366 days exactly if 4 divides it and 100 does not, or 400 does; the table of months agrees with it |
| `Calendar.DatesByHand` | server/lib/include/chrono_io:979-980 | three instants with the dates they have by hand: 8 December 2016, and the two seconds around the end of a leap February |
| `Timestamp.PrintSeconds` | server/lib/include/chrono_io:993-1000 | the seconds field: a zero in front if the unrounded value is below ten, six digits after the point |
| `Timestamp.PrintTimePoint` | server/lib/include/chrono_io:947-1027 | the whole printed text, in UTC or in a local zone |
| `Timestamp.ReadZone` | server/lib/include/chrono_io:1072-1116 | the offset is read, with its sign turned, exactly when a space, a sign and four digits are there; every early end of input fails |
| `Timestamp.ReadTimePoint` | server/lib/include/chrono_io:1029-1135 | the instant a text denotes, or nothing as soon as a part does not fit |
| `StampGrammar.SpelledIsRead` | server/lib/include/chrono_io:1056-1120 | every text of the grammar, with blanks in front of the date and of the seconds, any decimal seconds, an offset and anything after it, is read as the instant it denotes |
| `StampGrammar.ReadIsSpelled` | server/lib/include/chrono_io:1056-1116 | whatever is read is a text of the grammar |
| `StampGrammar.AcceptedExactly` | server/lib/include/chrono_io:1029-1135 | a text is accepted if and only if it has a spelling in the grammar, and it denotes the same instant by every spelling |
| `TimestampLaws.DateReadsBack` | server/lib/include/chrono_io:1056-1062 | every printed date up to year 9999 is read as the same fields |
| `TimestampLaws.ZoneReadsBack` | server/lib/include/chrono_io:1086-1116 | every printed offset under a hundred hours is read as the same number of minutes |
| `TimestampLaws.StampReadsBack` | server/lib/include/chrono_io:1029-1121 | date, seconds up to sixty, with any number of digits before the point and six after, and offset: the reader's instant |
| `TimestampLaws.PrintedIsRead` | server/lib/include/chrono_io:1066-1120 | reading what was printed succeeds for every instant and zone, whatever form the seconds took |
| `TimestampLaws.RoundTrip` | server/lib/include/chrono_io:947-1135 | for every instant from 1970 to 9999: the result is a whole microsecond, less than one microsecond off, at most half of one when the printer is off by at most a nanosecond, and equal to the instant if and only if that was a whole microsecond |
| `TimestampLaws.RoundTripError` | server/lib/include/chrono_io:993-999 | the loss is below half a microsecond plus the printer's own error |
| `TimestampLaws.RoundTripMonotone` | server/lib/include/chrono_io:1060-1120 | reading what was printed keeps the order of all instants, across zones |
| `TimestampLaws.RoundTripIdempotent` | server/lib/include/chrono_io:1060-1120 | printing and reading a second time changes nothing |
| `TimestampLaws.SecondsForms` | server/lib/include/chrono_io:995-999 | the seconds have the plain two-digit form unless a carry to ten happens; then `010.000000`, and at a carry to sixty `60.000000` |
| `TimestampLaws.FieldsOrder` | server/lib/include/chrono_io:982-1013 | over one fixed-width layout, comparing texts is comparing the numbers from left to right |
| `TimestampLaws.WholeMicrosText` | server/lib/include/chrono_io:982-1013 | whole microseconds print digit for digit in the fixed 32-character layout |
| `WireText.DecemberText` | server/lib/include/chrono_io:982-1013 | a known instant prints as `2016-12-08 00:00:00.123456 +0000` |
| `WireText.ZonesByHand` | server/lib/include/chrono_io:1086-1120 | an offset east of UTC is subtracted and one west of it added, on two texts written out |
| `TimestampLaws.PlainStampReadsBack` | server/lib/include/chrono_io:1029-1121 | a text in the fixed layout denotes the instant its fields spell |
| `TimestampLaws.StampOrder` | server/lib/include/chrono_io:982-1013 | for whole microseconds of one zone all texts have length 32 and their lexicographic order is the order of time, both ways |
| `ClientTime.ServerReadsClient` | client/app/src/main/java/ca/uwo/eng/se3313/lab4/network/GsonUtils.java:49-57 | what the client prints in its local time with its offset is read by the server as the same millisecond, for every zone in whole minutes |
| `ClientTime.ClientReadsClient` | client/app/src/main/java/ca/uwo/eng/se3313/lab4/network/GsonUtils.java:49-65 | what the client prints it reads back as the same millisecond, for every offset under a day |
| `ClientTime.ClientReadsServer` | client/app/src/main/java/ca/uwo/eng/se3313/lab4/network/GsonUtils.java:59-65 | the client takes a server timestamp if and only if its seconds have the plain form below sixty, and then gets the instant the server would read, less what is below a millisecond |
| `StampGrammar.ClientAcceptsExactly` | client/app/src/main/java/ca/uwo/eng/se3313/lab4/network/GsonUtils.java:59-65 | the client accepts a text if and only if it has a spelling with two digits of seconds below sixty, six of fraction, an existing day, an offset under a day, and nothing before, between or after |
| `ClientTime.ClientReadsWholeMicros` | client/app/src/main/java/ca/uwo/eng/se3313/lab4/network/GsonUtils.java:59-65 | server timestamps of whole microseconds are always read, to the millisecond |
| `ClientTime.UnreadableInstants` | client/app/src/main/java/ca/uwo/eng/se3313/lab4/network/GsonUtils.java:49-65 | with exact conversions, the instants the client cannot read are those of the last half microsecond before ten seconds and before the full minute, and no others |
| `ClientTime.ExactIsSound` | server/lib/include/chrono_io:993-999 | the assumptions about the double conversions can be met, together |
| `NumberTheory.Gcd` | server/lib/include/chrono_io:473-484 | the loop computes the recursive greatest common divisor |
| `NumberTheory.GcdDivides` | server/lib/include/chrono_io:473-484 | it divides both numbers |
| `NumberTheory.GcdIsGreatest` | server/lib/include/chrono_io:473-484 | every common divisor divides it |
| `NumberTheory.Bezout` | server/lib/include/chrono_io:473-484 | it is an integer combination of the two numbers |
| `NumberTheory.Euclid` | server/lib/include/chrono_io:698-716 | if a number is coprime to one factor and divides the product, it divides the other |
| `NumberTheory.CoprimeProduct` | server/lib/include/chrono_io:714-716 | a number coprime to two factors is coprime to their product |
| `NumberTheory.ReducedCoprime` | server/lib/include/chrono_io:721-723 | dividing by the common divisor leaves coprime numbers |
| `DurationArithmetic.GuardIsExact` | server/lib/include/chrono_io:707-715 | each guard fires exactly when the 64-bit product would wrap, and otherwise the product does not wrap |
| `DurationArithmetic.ReductionIsExact` | server/lib/include/chrono_io:721-729 | the reduced denominator is one exactly when it divides the count |
| `DurationArithmetic.Factor` | server/lib/include/chrono_io:701-715 | the cross-reduced factor, computed in wrapping arithmetic, or the overflow flag |
| `DurationArithmetic.Multiply` | server/lib/include/chrono_io:721-748 | the exact product if the count divides evenly and the result fits, failure otherwise, division by zero for zero units |
| `DurationArithmetic.Rescale` | server/lib/include/chrono_io:698-748 | the two halves together: stored, failed or divided by zero, for every unit |
| `DurationArithmetic.StoresExactly` | server/lib/include/chrono_io:698-748 | for every positive count and unit: a count is stored if and only if it fits, lasts exactly as long, and the reduced denominator divides the count read |
| `DurationArithmetic.StoresEveryExactResult` | server/lib/include/chrono_io:698-748 | for units in lowest terms: a count is stored if and only if it fits and lasts exactly as long; the guards lose nothing |
| `DurationArithmetic.FactorIsReduced` | server/lib/include/chrono_io:699-716 | cross reduction leaves the factor in lowest terms |
| `DurationArithmetic.ZeroCount` | server/lib/include/chrono_io:707-713 | zero is stored if and only if both parts of the factor fit in 64 bits |
| `DurationArithmetic.UnreducedUnitRefused` | server/lib/include/chrono_io:724-729 | two units of 2/4 of a second last one second and are refused; two units of 1/2 are accepted |
| `DurationArithmetic.SamePeriod` | server/lib/include/chrono_io:698-748 | reading into the period of the unit keeps the count |
| `DurationText.UnitNamesDiffer` | server/lib/include/chrono_io:335-410 | no two unit names are equal, long and short forms together |
| `DurationText.KeywordsDistinct` | server/lib/include/chrono_io:494-560 | the keywords that the reader scans for are distinct |
| `DurationText.UnitReadsBack` | server/lib/include/chrono_io:335-410 | every unit text, named or bracketed, is read as the ratio it was printed for |
| `DurationText.UnitNames` | server/lib/include/chrono_io:335-410 | for each of the nineteen named units, with its ratio and names written out: the printer gives those names for that ratio and the reader reads each as that ratio |
| `DurationText.UnnamedText` | server/lib/include/ratio_io:45-53 | any other ratio prints as `[N/D]` and the word for seconds |
| `DurationText.ReadDuration` | server/lib/include/chrono_io:494-762 | count, space, unit, rescaling: the outcome for every text, zero units included |
| `DurationText.DurationRoundTrip` | server/lib/include/chrono_io:412-762 | printing any count of any period and reading it into that period gives the count back |
| `Messages.FindAfterPut` | server/lib/include/msg/instance.hpp:239-248 | what was put is found, and nothing else changes |
| `Messages.BaseJson` | server/lib/include/msg/instance.hpp:239-248 | time stamp and sender, as the two first properties |
| `Messages.SubToJson` | server/lib/src/msg/message.cpp:51-72 | the properties of each of the five types |
| `Messages.ToJson` | server/lib/include/msg/instance.hpp:200-209 | type tag and object of each of the five types |
| `Messages.ExtractReadsBack` | server/lib/src/msg/instance.cpp:39-69 | the tag and the object of an encoded message are extracted |
| `Messages.CodecRoundTrip` | server/lib/include/msg/instance.hpp:188-248 | encode, extract and decode gives back the message, its time to the microsecond, for all five types |
| `Messages.AccessorsKept` | server/lib/src/msg/error.cpp:41-81 | every accessor of every type survives; the time is off by less than a microsecond and exact for whole microseconds |
| `WireText.LoginReplyTree` | server/lib/src/msg/login.cpp:48-58 | the tree of the reply to an accepted login, written out |
| `WireText.MessageReplyTree` | server/lib/src/msg/message.cpp:51-72 | the tree of the reply to a message, written out |
| `WireText.InUseTree` | server/server/src/server.cpp:113-115 | the tree of the reply to a login under a name in use: code 1, its text, the server as originator |
| `WireText.NoTypeTree` | server/lib/include/msg/visitor.hpp:110-118 | the tree of the reply to a request of no known type: code 201 and the unknown originator |
| `WireText.LoginTreeIsRead` | server/lib/include/msg/instance.hpp:212-237 | a login request written out reaches the visit method with its sender; a timestamp that cannot be read counts as the epoch |
| `WireText.MessageTreeIsRead` | server/lib/include/msg/instance.hpp:212-237 | the same for a message request and its content |
| `WireText.ClientRequestTree` | client/app/src/main/java/ca/uwo/eng/se3313/lab4/network/GsonUtils.java:49-57 | the client's message request, timestamp included, written out |
| `Visitors.RequestVisitor.constructor` | server/lib/include/msg/visitor.hpp:128-167 | exactly the two request types are registered |
| `Visitors.RequestVisitor.Visit` | server/lib/include/msg/visitor.hpp:95-118 | the outcome for every tree |
| `Visitors.RequestsDispatch` | server/lib/include/msg/visitor.hpp:95-167 | an encoded login or message request reaches the visit method of its type with that request; any response type gives the no-type error |
| `Visitors.OutcomeByShape` | server/lib/include/msg/visitor.hpp:95-167 | over all trees: the no-type error if and only if tag or object is missing or the tag is unknown; an exception if and only if a known tag lacks a property; the bad-object error never |
| `ClientMessages.ClientSeesReplies` | client/app/src/main/java/ca/uwo/eng/se3313/lab4/network/response/AbstractResponseVisitor.java:26-54 | of all the server can write, the client takes login and message responses with plain seconds, with their contents and their time to the millisecond, and throws on the rest |
| `ClientMessages.ServerSeesRequests` | client/app/src/main/java/ca/uwo/eng/se3313/lab4/network/GsonUtils.java:54-57 | a request as the client writes it, in local time of any zone, reaches the server's visit method of its type unchanged |
| `JsonText.Clean` | server/lib/include/msg/json.hpp:47-59 | the text up to the last newline, then up to the last closing brace |
| `JsonText.CleanRecovers` | server/lib/include/msg/json.hpp:47-59 | exactly when the clean-up of a document, a newline and rubbish gives the document |
| `Networking.Socket.Read` | server/lib/src/networking/socket.cpp:120-155 | a closed socket reads as an error; an error and the end of the stream close it |
| `Networking.Socket.Write` | server/lib/src/networking/socket.cpp:157-172 | throws if closed, closes on failure, otherwise appends to what was sent |
| `Networking.Socket.Close` | server/lib/src/networking/socket.cpp:174-181 | the socket is closed |
| `Networking.FlexWaiter.AddSocket` | server/lib/src/networking/flex_waiter.cpp:61-66 | the socket joins the set |
| `Networking.FlexWaiter.RemoveSocket` | server/lib/src/networking/flex_waiter.cpp:68-77 | the socket leaves the set, and only that one |
| `Networking.FlexWaiter.Kill` | server/lib/src/networking/flex_waiter.cpp:79-86 | the kill event's counter grows by the kill signal, if a first wait has made the event; a wait that reads it sets it back |
| `Networking.FlexWaiter.WatchSet` | server/lib/src/networking/flex_waiter.cpp:108-129 | the descriptors are those of standard input, the master and the open sockets, and none exceeds the maximum |
| `Networking.FlexWaiter.FindReady` | server/lib/src/networking/flex_waiter.cpp:211-219 | the first ready socket reached, or none if there is none; the sockets after it are never looked at, so no iteration is left when the handler changes the set |
| `Networking.FlexWaiter.Wait` | server/lib/src/networking/flex_waiter.cpp:108-226 | at most one call, by priority kill, standard input, server, socket; the line handed on is what was read, without the one newline at its end; the socket is registered, and open if descriptors are distinct; each failure throws; the set is unchanged until the call |
| `Networking.FlexWaiter.ReadyIsOpen` | server/lib/src/networking/flex_waiter.cpp:121-129 | a ready descriptor that is none of the special ones belongs to an open socket |
| `Networking.StrippedOnce` | server/lib/src/networking/flex_waiter.cpp:195-199 | one newline at the end of a line goes, and nothing else |
| `ServerCore.RemoveKeepsSync` | server/server/src/server.cpp:104-107 | removing a socket keeps both registries equal and without duplicates |
| `ServerCore.AcceptKeepsSync` | server/server/src/server.cpp:99-102 | so does adding a new one |
| `ServerCore.ExitStep` | server/server/src/server.cpp:92-94 | one pass of the exit loop removes the element at the index, and the registries agree after it |
| `ServerCore.ExitKeepsOddPositions` | server/server/src/server.cpp:89-97 | the exit loop ends with exactly the sockets at odd positions, in order, in both registries; nothing is left if and only if there was at most one |
| `ServerCore.ExitPass` | server/server/src/server.cpp:92-94 | the loop ends when the index reaches the length, and otherwise goes on from the next index after the removal |
| `ServerCore.LoginNamesAre` | server/server/src/server.cpp:117-118 | a name is among a log's logins if and only if a login response for it is in the log |
| `ChatServer.ServedAsReplied` | server/server/src/server.cpp:69-76 | any printable request, sent through the codec and the visitor, gets the reply and the names that the protocol says |
| `ChatServer.Server.constructor` | server/server/src/server.cpp:40-47 | the server starts as the protocol starts |
| `ChatServer.Server.RegistriesInSync` | server/server/src/server.cpp:99-107 | an object that shows a reachable state of the protocol has the same sockets in list and waiter, each once |
| `ChatServer.Server.AddSocketConnection` | server/server/src/server.cpp:99-102 | the object changes as the protocol's registries do on an accept |
| `ChatServer.Server.RemoveSocketConnection` | server/server/src/server.cpp:104-107 | the object changes as the protocol's registries do on a removal |
| `ChatServer.Server.VisitLogin` | server/server/src/server.cpp:109-119 | a name in the list is refused with the in-use text, any other is appended and gets a login response; either reply bears the current time and the server as sender |
| `ChatServer.Server.VisitMessage` | server/server/src/server.cpp:121-125 | the message is echoed with its sender as originator |
| `ChatServer.Server.WriteToAll` | server/server/src/server.cpp:74-76 | the loop does to the sockets what the protocol's broadcast does, thrown exception included |
| `ChatServer.Server.OnSocketServer` | server/server/src/server.cpp:58-61 | an accept is the protocol's accept step; a failing one throws and changes nothing |
| `ChatServer.Server.OnSocket` | server/server/src/server.cpp:63-87 | for every result of reading: error, end of stream, text that is not JSON, and every tree, the new sockets, registries and names, and whether it threw |
| `ChatServer.ClientRequestServed` | server/server/src/server.cpp:69-76 | any request as the client writes it gets the reply and the names that the protocol says |
| `ChatServer.Server.RequestTextIsRead` | server/server/src/server.cpp:66-76 | given the client's own text for the next request on the connection, in any zone, what the handler does is the protocol's read step |
| `ChatServer.Server.OnStdin` | server/server/src/server.cpp:89-97 | "exit" leaves exactly the listed sockets at odd positions, in list and waiter, and ends the activity; any other line changes nothing |
| `ChatServer.Server.TurnOnStdin` | server/server/src/server.cpp:89-97 | in any state of a run, "exit" leaves the object with its sockets at odd positions and inactive |
| `ChatServer.ExitLineEnds` | server/lib/src/networking/flex_waiter.cpp:182-202 | a turn that reads a line on standard input ends the activity if and only if the line is "exit", with or without its newline; then the sockets at odd positions are left, and otherwise all |
| `ChatServer.Server.TurnOnSocket` | server/server/src/server.cpp:63-87 | one whole handling of a socket takes the object from the state of a run to the state after the steps named for it: a read error, an end, the client's next request being read, or a foreign request arriving and being read; it throws exactly if there is no request to read or the broadcast throws |
| `ChatServer.Server.AwaitCall` | server/lib/src/networking/flex_waiter.cpp:108-224 | the call that a wait leads to is the one the protocol's state determines, up to the choice among ready sockets; a line handed on is the one read, without the newline at its end |
| `ChatServer.Server.Turn` | server/lib/src/networking/flex_waiter.cpp:160-224 | each dispatched call extends the run by exactly the steps it stands for, numbers a new socket and leaves the other numbers, and throws exactly when it should |
| `ChatServer.Server.Start` | server/server/src/server.cpp:40-51 | over any events, and with any number of clients taking any steps between them, the loop goes turn by turn through the states of one run of the protocol; it ends by exception, by "exit" or with the events; if no system call failed and all input was well formed, nothing threw and every listed socket is open |
| `ChatServer.Server.WrittenFollowsLogins` | server/server/src/server.cpp:74-76 | whatever state of a run without foreign requests the object shows, each message it has written stands in the log behind a login of its originator |
| `ClientCore.CheckKeepsDisplay` | client/app/src/main/java/ca/uwo/eng/se3313/lab4/MainActivity.java:191-236 | checking a reply keeps the display a contiguous piece that starts at the first login response bearing the client's name |
| `ClientCore.ActKeepsClient` | client/app/src/main/java/ca/uwo/eng/se3313/lab4/MainActivity.java:98-236 | every step of every thread keeps the client consistent with what its socket received |
| `ClientCore.LockedOutForGood` | client/app/src/main/java/ca/uwo/eng/se3313/lab4/MainActivity.java:126-126 | a client that missed its login by the overwrite never shows anything more |
| `ClientCore.LockOutIsSettled` | client/app/src/main/java/ca/uwo/eng/se3313/lab4/MainActivity.java:126-236 | once login has returned no step of any thread changes whether the client is locked out |
| `ClientCore.OverwriteExample` | client/app/src/main/java/ca/uwo/eng/se3313/lab4/MainActivity.java:125-126 | an interleaving in which the overwrite happens |
| `ClientCore.BadReplyStops` | client/app/src/main/java/ca/uwo/eng/se3313/lab4/network/response/AbstractResponseVisitor.java:47-53 | an error reply, or one that does not decode, stops any client, logged in or not, and nothing else changes |
| `ClientCore.ReplyThrough` | client/app/src/main/java/ca/uwo/eng/se3313/lab4/network/NetworkingConnection.java:112-114 | a login or message response taken, checked and shown: the client is logged in if it bears its name, and shows it exactly if it is logged in by then |
| `ClientCore.LoginThrough` | client/app/src/main/java/ca/uwo/eng/se3313/lab4/MainActivity.java:98-127 | a login with nothing in between queues the one request, which is sent once the reader is connected and is fatal before |
| `ClientApp.NetworkingConnection.Send` | client/app/src/main/java/ca/uwo/eng/se3313/lab4/network/NetworkingConnection.java:62-98 | a message joins the queue of background tasks |
| `ClientApp.MainActivity.LockSocket` | client/app/src/main/java/ca/uwo/eng/se3313/lab4/network/NetworkingConnection.java:105-105 | a started reader takes the socket lock |
| `ClientApp.MainActivity.OpenSocket` | client/app/src/main/java/ca/uwo/eng/se3313/lab4/network/NetworkingConnection.java:106-111 | the reader has its socket and gives the lock back |
| `ClientApp.MainActivity.FailToOpen` | client/app/src/main/java/ca/uwo/eng/se3313/lab4/network/NetworkingConnection.java:104-122 | a reader that cannot connect ends with the lock held |
| `ClientApp.MainActivity.TakeReply` | client/app/src/main/java/ca/uwo/eng/se3313/lab4/network/NetworkingConnection.java:112-114 | the replies are taken one at a time in the order received |
| `ClientApp.MainActivity.RunTask` | client/app/src/main/java/ca/uwo/eng/se3313/lab4/network/NetworkingConnection.java:69-81 | when the lock is free the first task writes its message to the socket, or drops it if the write fails; without a socket it is fatal |
| `ClientApp.MainActivity.CheckReply` | client/app/src/main/java/ca/uwo/eng/se3313/lab4/MainActivity.java:193-236 | the login check of `visitLogin`, all of `visitMessage`, an exception for other replies and for those that do not decode |
| `ClientApp.MainActivity.ShowReply` | client/app/src/main/java/ca/uwo/eng/se3313/lab4/MainActivity.java:199-208 | a login is shown if the client is logged in by then |
| `ClientApp.MainActivity.OnMsgSend` | client/app/src/main/java/ca/uwo/eng/se3313/lab4/MainActivity.java:129-143 | if the client is logged in and the text is not empty, one request with that text, the user and the time joins the queue; otherwise nothing changes |
| `ClientApp.MainActivity.Login` | client/app/src/main/java/ca/uwo/eng/se3313/lab4/MainActivity.java:98-127 | with any steps of the other threads at its cuts, `login` is the five steps with those in between, and ends in the state of line 126; it does nothing for a short name or a second login |
| `ClientApp.ActsKeepClient` | client/app/src/main/java/ca/uwo/eng/se3313/lab4/MainActivity.java:98-236 | any run of any threads keeps the client consistent with its socket |
| `ClientApp.ActsKeepSettled` | client/app/src/main/java/ca/uwo/eng/se3313/lab4/MainActivity.java:98-236 | once login is over no run of any threads changes whether the client is locked out |
| `ClientApp.LoginOutcome` | client/app/src/main/java/ca/uwo/eng/se3313/lab4/MainActivity.java:98-127 | for every interleaving and every continuation: locked out if and only if a login response bearing its name was checked before line 126 ran; otherwise logged in if and only if one has been checked by now |
| `ProtocolInvariants.BroadcastDelivers` | server/server/src/server.cpp:74-76 | who gets what in one broadcast, and when it throws |
| `ProtocolInvariants.ReadEffect` | server/server/src/server.cpp:63-78 | one request read adds one reply to the log and to every socket reached, and nothing else |
| `ProtocolInvariants.StepKeepsServer` | server/server/src/server.cpp:58-119 | every step of the system keeps the server's invariant |
| `ProtocolInvariants.StdinInRun` | server/server/src/server.cpp:89-97 | "exit" changes the registries and the activity only, any other line nothing |
| `ProtocolClients.StepKeepsClients` | client/app/src/main/java/ca/uwo/eng/se3313/lab4/MainActivity.java:98-236 | every step of the system keeps every client consistent |
| `ProtocolClients.LoggedInIsLogged` | client/app/src/main/java/ca/uwo/eng/se3313/lab4/MainActivity.java:193-198 | a logged-in client's login response is in the log |
| `ProtocolClients.StepKeepsCausal` | client/app/src/main/java/ca/uwo/eng/se3313/lab4/MainActivity.java:129-143 | every step keeps all message requests, queued and in transit, behind the login of their sender |
| `ProtocolClients.StepCausalExactly` | server/server/src/server.cpp:121-125 | a step keeps messages behind logins in the log if and only if the sender of a message it reads is in the name list |
| `ProtocolChannels.StepKeepsLife` | server/server/src/server.cpp:58-107 | a connection's start never moves; once it is removed or closed it stays so and is sent nothing |
| `ProtocolReplies.StepKeepsAnswered` | server/server/src/server.cpp:63-78 | every step keeps replies and requests one to one |
| `ProtocolOwners.StepKeepsOwned` | client/app/src/main/java/ca/uwo/eng/se3313/lab4/MainActivity.java:107-142 | while only clients write, every step keeps each connection with one owner, and every queued or written request signed with its owner's name |
| `ProtocolLaws.Run` | server/server/src/server.cpp:40-119 | every reachable state satisfies all invariants |
| `ProtocolLaws.CausalExactly` | server/server/src/server.cpp:121-125 | in every run, each message response is behind a login response for its originator if and only if every message read came from a name accepted by then |
| `ProtocolLaws.ClientsGuardRun` | client/app/src/main/java/ca/uwo/eng/se3313/lab4/MainActivity.java:129-132 | in every run in which only clients write requests, every message read came from an accepted name |
| `ProtocolLaws.RogueExactly` | server/server/src/server.cpp:63-78 | a run is without foreign requests if and only if none of its steps is one |
| `ProtocolLaws.MessagesFollowLogins` | client/app/src/main/java/ca/uwo/eng/se3313/lab4/MainActivity.java:129-143 | in every run in which only clients write requests, each message response in the log is preceded by a login response for its originator |
| `ProtocolLaws.OutsiderBreaksCausality` | server/server/src/server.cpp:121-125 | one foreign request gives a run without the login |
| `ProtocolLaws.SentIsLogSegment` | server/server/src/server.cpp:58-87 | what a socket was ever sent is one contiguous piece of the broadcast log, up to its end while the socket is listed and open |
| `ProtocolLaws.StartIsAccept` | server/server/src/server.cpp:58-61 | that piece starts where the log ended when the socket was accepted, in every continuation |
| `ProtocolLaws.OverForGood` | server/server/src/server.cpp:79-82 | a socket that was removed or closed is never sent anything more |
| `ProtocolLaws.SentIsLifeSegment` | server/server/src/server.cpp:58-107 | what a socket was ever sent is exactly the log from its accept to its removal or failure |
| `ProtocolLaws.CommonRepliesAgree` | server/server/src/server.cpp:74-76 | two sockets that both received a log entry have it at the same offset |
| `ProtocolLaws.RegistriesAgree` | server/server/src/server.cpp:99-107 | in every reachable state the list has no duplicates and holds the same sockets as the waiter |
| `ProtocolLaws.ExitInRun` | server/server/src/server.cpp:89-97 | in every run, "exit" leaves the sockets at odd positions in both registries and ends the activity; names, connections and log stay |
| `ProtocolLaws.NamesAreLogins` | server/server/src/server.cpp:109-119 | in every run the name list is the sequence of login responses, and no name is accepted twice |
| `ProtocolLaws.NoFaultNoThrow` | server/lib/src/networking/socket.cpp:120-172 | if no `recv` or `write` failed, every listed socket is open and no broadcast threw |
| `ProtocolFaults.StepCrashesExactly` | server/lib/src/networking/socket.cpp:157-162 | over all steps, the server ends if and only if it answers a request with a closed socket in its list |
| `ProtocolFaults.ErrorIsNotForgotten` | server/server/src/server.cpp:84-86 | after one failed `recv` the socket stays closed in the list, whatever happens short of "exit" |
| `ProtocolFaults.OneErrorEndsServer` | server/server/src/server.cpp:74-86 | and the next request answered, whoever makes it, ends the server |
| `ProtocolLaws.OneReplyPerRequest` | server/server/src/server.cpp:63-78 | replies and requests read correspond one to one; each reply answers its request, a login being refused if and only if an earlier login response names the user; without faults the asker receives it |
| `ProtocolTraffic.EntryStamped` | server/server/src/server.cpp:109-125 | in every run, what reading a request adds to the log bears the time of that step and the server as sender; a refused login also the in-use text |
| `ProtocolTraffic.NoEmptyMessages` | client/app/src/main/java/ca/uwo/eng/se3313/lab4/MainActivity.java:129-143 | in every run in which only clients write, no message queued, sent or broadcast is empty |
| `ProtocolTraffic.RequestsInOrder` | client/app/src/main/java/ca/uwo/eng/se3313/lab4/network/NetworkingConnection.java:62-98 | in every such run, what has been written on a client's connection and what is still queued is a subsequence of the requests the client made, and all of them in order if no send failed |
| `ProtocolTraffic.RepliesInOrder` | server/server/src/server.cpp:63-78 | and, if no send of the client failed, the n-th reply in the log to its connection answers the n-th request it made |
| `ProtocolLaws.DisplayIsLogSegment` | client/app/src/main/java/ca/uwo/eng/se3313/lab4/MainActivity.java:191-236 | what a client shows is a contiguous piece of the log that starts with the first login response bearing its name; a logged-in client has shown all it has handled and its name is in the server's list |
| `ProtocolLaws.OverwriteIsForever` | client/app/src/main/java/ca/uwo/eng/se3313/lab4/MainActivity.java:126-126 | after the overwrite no continuation of the run logs the client in or shows it anything |
| `ProtocolLaws.LockOutIsFinal` | client/app/src/main/java/ca/uwo/eng/se3313/lab4/MainActivity.java:126-236 | after a login no continuation of the run changes whether the client is locked out |
| `ProtocolLaws.LoginDecides` | client/app/src/main/java/ca/uwo/eng/se3313/lab4/MainActivity.java:126-198 | in every run and continuation: locked out if and only if a login response bearing its name had been checked when line 126 ran, and otherwise logged in if and only if one has been checked |
| `ProtocolNaming.LoginsAnswerClients` | server/server/src/server.cpp:109-119 | in every run in which only clients write, each login response answers the owner of the asking connection, who has that name |
| `ProtocolNaming.WhoseLogin` | client/app/src/main/java/ca/uwo/eng/se3313/lab4/MainActivity.java:193-198 | the response a client takes for its login answers a client of its name; that is itself if and only if it was asked for on its own connection, and always if no other client uses the name |
| `ProtocolNaming.TwoUnderOneName` | client/app/src/main/java/ca/uwo/eng/se3313/lab4/MainActivity.java:193-198 | a run without fault or foreign request after which two clients are logged in under one name, the first before it has sent its own login request |

## Left out

- TimestampLaws.RoundTrip: assumes `Timestamp.Sound`: for less than a minute, the conversion of nanoseconds to a double is off by at most half a microsecond, and so is the reading of the decimal seconds. The bound of half a microsecond on the result needs the first error to be at most a nanosecond; a correctly rounded double is far closer.
- TimestampLaws.RoundTripMonotone: assumes the printer's double is off by less than a nanosecond; with a coarser error the order of neighbouring instants could turn.
- TimestampLaws.StampOrder: also assumes that the double does not cross the mark of ten seconds, which correct rounding guarantees.
- ClientTime.ServerReadsClient: the client's formatter is taken from its pattern; how the library behind it formats is not part of this model.
- ClientMessages.ClientSeesReplies: a tree in which two properties have the same name, which the server never writes, is read by its first; what `visitLogin` and `visitMessage` do with null arguments is not modelled.
- ChatServer.Server.Start: the events are a finite sequence; the server's loop has no bound. A text that is not the client's own for the next request on its connection counts as a foreign request that arrives when it is read.
- Networking.FlexWaiter.FindReady: the handler is called after the search has returned, not from within the loop as in the source, where a break follows the call.
- ClientTime.ClientReadsServer: the client's reader takes fields of fixed width; texts with shorter fields, which the server never prints, are not modelled. Its library's parser is taken from the pattern.
- Instants before 1970 or after 9999, negative counts, and zone offsets that are not whole minutes.
- Floating-point counts in durations: only integral representations are modelled.
- Reading of numbers by the stream: unsigned digits with an optional decimal point; signs, exponents and thousands separators are not modelled. Date fields are taken at fixed widths.
- Locale facets for unit names and custom format strings, and `steady_clock` printing: they add parameters that are passed to the library.
- Sockets, `select`, `eventfd`, `recv`, `accept`: their results are parameters. One JSON document arrives per read, and channels are first-in first-out, as the code has no framing. Text left in a receive buffer from an earlier read is not modelled.
- The JSON parser and writer, and reflection in the client's codec: trees are handled directly, and text that is not JSON is a case of its own.
- The texts of error replies to malformed requests: one fixed text each.
- The timeout of a wait.
- A client that meets an unknown host, sends before its socket exists, or receives a reply it cannot dispatch or decode: it stops, and nothing after that is modelled.
- The user interface itself: fragments, the reflection calls that add a line to the chat room, clearing the text field. What is shown is the sequence of replies handed to it.
- Closing a client's connection: `close` is empty in the code.
