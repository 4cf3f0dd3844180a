# Event counter, pull stream and datagram message — a verified model

This project models the deterministic logic of three Node.js snippets:

- **The event-emitting counter** (`ch1/counter.js`). A counter holds an
  integer; `increment` and `decrement` change it by one and then emit one
  event, `"incremented"` or `"decremented"`, carrying the new value. The
  driver script creates a counter at 10, adds one logging callback for both
  event names, and calls increment twice and decrement three times. Module
  `Counter` models a counter as its value plus the trace of events it has
  emitted, and the callback's log as the fan-out of that trace to the
  registrations for each event name.
- **The bounded pull producer** (`ch1/stream.js`, and the same `_read` hook
  in `ch1/stream-writable.js`). Every pull advances a cursor; once the
  cursor exceeds 10 the pull signals end-of-stream (`push(null)`), otherwise
  it produces the cursor's decimal text and a newline. `pipe` pulls until
  end-of-stream and writes every chunk to a sink (standard output, or
  `counter.txt`). Module `Producer` models one pull as a step function and
  the pipe as a loop appending to a string sink.
- **The datagram message** (`ch1/network-udp-client.js`). The client's
  message is the command-line arguments after the first two, joined by
  spaces, or `"message"` when that join is empty; the send call covers the
  whole buffer. Module `Datagram` models the message derivation and the
  range passed to `send`.

`Wrappers` holds the `Option` type used to read produced lines back.

One consequence of the code as written: a command line whose extra
arguments are two or more empty strings gives a message made of spaces (the
join of `["", ""]` is `" "`), not the default. Only no extra arguments, or
exactly one empty one, fall back to `"message"` (`Datagram.FallsBackIff`).

## Model

| member | source | states |
|---|---|---|
| Counter.New | ch1/counter.js:3 | `new Counter(i)` holds `i` and has emitted nothing yet |
| Counter.Increment | ch1/counter.js:4-9 | the count rises by exactly 1; exactly one `incremented` event is appended, carrying the count after the change; earlier events are untouched |
| Counter.Decrement | ch1/counter.js:10-13 | the count falls by exactly 1; exactly one `decremented` event is appended, carrying the count after the change; earlier events are untouched |
| Counter.Apply | ch1/counter.js:4-13 | either call appends one event of its own kind carrying the new count, and moves the count by +1 or -1 accordingly |
| Counter.Run | ch1/counter.js:3-14 | a call sequence appends one event per call and keeps earlier events; the count moves by the number of increments minus the number of decrements, and by nothing else |
| Counter.RunKinds | ch1/counter.js:4-13 | the event emitted by the i-th call has that call's kind |
| Counter.IncrementThenDecrement | ch1/counter.js:4-13 | increment followed by decrement restores the count and emits exactly `incremented(n+1)`, `decremented(n)` |
| Counter.DecrementThenIncrement | ch1/counter.js:4-13 | decrement followed by increment restores the count and emits exactly `decremented(n-1)`, `incremented(n)` |
| Counter.PayloadIsStateAfter | ch1/counter.js:6-12 | mutation precedes emission: the payload of the i-th emitted event equals the count right after the first i+1 calls |
| Counter.RunReplays | ch1/counter.js:3-14 | replaying the emitted kinds (+1 per increment, -1 per decrement) from the initial value always gives the count the counter holds |
| Counter.Deliver | ch1/counter.js:25-26 | one emitted event reaches the shared callback once per registration for its kind, always with the event's payload |
| Counter.Observed | ch1/counter.js:21-26 | with no registration the shared callback logs nothing (the log's content is stated by `Counter.ObservedAppend` and `Counter.ObservedOnceEach`) |
| Counter.ObservedAppend | ch1/counter.js:8-12 | each emitted event appends exactly its own deliveries to the log, whatever the registrations, so the log follows emission order |
| Counter.ObservedOnceEach | ch1/counter.js:21-26 | with the callback registered once for each kind, its log is exactly the payloads of the trace, in emission order |
| Counter.ScriptTrace | ch1/counter.js:19-31 | starting at 10, increment, increment, decrement, decrement, decrement emit incremented 11, 12 and decremented 11, 10, 9, leaving the count at 9 |
| Counter.ScriptLog | ch1/counter.js:19-31 | the driver script's callback logs 11, 12, 11, 10, 9 |
| Producer.Decimal | ch1/stream.js:14 | the text of `count + ''` is non-empty, all decimal digits, with no leading zero |
| Producer.Line | ch1/stream.js:14 | the chunk `count + '\n'` is exactly one line: at least one character before a final newline, and no other newline |
| Producer.DecimalRoundTrip | ch1/stream.js:14 | reading the decimal text of n as a number gives n back |
| Producer.LineRoundTrip | ch1/stream-writable.js:16 | a produced line (digits then one newline) reads back as the cursor value it was made from |
| Producer.Pull | ch1/stream.js:6-16 | one `_read` advances the cursor by exactly 1; it signals end-of-stream exactly when the new cursor exceeds 10; otherwise it produces one chunk, the new cursor's decimal text plus a newline |
| Producer.Pulls | ch1/stream.js:6-16 | k successive `_read` calls give exactly k outputs, one per pull (each one's value is stated by `Producer.PullsAt`) |
| Producer.PullsAt | ch1/stream-writable.js:8-18 | the i-th of successive pulls from cursor c yields the line for c+i+1 while that is at most 10, and end-of-stream after |
| Producer.PullsFromStart | ch1/stream.js:4-16 | from the initial cursor 0, pulls 1 to 10 yield `"1\n"` to `"10\n"` in order, and pull 11 and every later pull yield end-of-stream |
| Producer.EndIsFinal | ch1/stream-writable.js:9-13 | once a pull signals end-of-stream, every later pull signals end-of-stream too |
| Producer.ChunksAscend | ch1/stream.js:7-15 | a chunk followed by a chunk: the second value is exactly one more than the first |
| Producer.Pipe | ch1/stream-writable.js:6-20 | piping from cursor `start` writes the lines `start+1` to 10 to the sink in order, stops with the one pull that signalled end-of-stream, and pulls nothing after it |
| Producer.LinesFromStart | ch1/stream.js:4-19 | the sink of the snippet receives exactly `"1\n2\n3\n4\n5\n6\n7\n8\n9\n10\n"` |
| Datagram.Splice | ch1/network-udp-client.js:6 | `splice(2)` splits the arguments into the first two entries (fewer if there are fewer) and the rest, losing and reordering nothing |
| Datagram.Join | ch1/network-udp-client.js:6 | `join(" ")` starts with the first argument and is exactly as long as all arguments plus one separator between each two neighbours; joining nothing gives the empty text |
| Datagram.JoinAppend | ch1/network-udp-client.js:6 | `join(" ")` puts exactly one separator between each two neighbouring arguments, whatever they contain: joining one more part appends the separator and that part |
| Datagram.SplitJoin | ch1/network-udp-client.js:6 | joining arguments with single spaces can be undone by splitting at spaces when no argument holds a space |
| Datagram.JoinEmpty | ch1/network-udp-client.js:6 | a join with a non-empty separator is empty exactly when there are no parts or a single empty part |
| Datagram.FallsBackIff | ch1/network-udp-client.js:6 | the default is used (guard fails or the join is empty) exactly when there are at most two arguments, or exactly one empty extra argument |
| Datagram.Message | ch1/network-udp-client.js:6 | the message is never empty; it is `"message"` when there is nothing to send; otherwise it is the arguments from index 2 joined by single spaces, and splitting it at spaces gives those arguments back when none holds a space |
| Datagram.MessageIgnoresFirstTwo | ch1/network-udp-client.js:6 | command lines that agree from index 2 on give the same message, whatever their first two entries |
| Datagram.SendMessage | ch1/network-udp-client.js:9 | the send covers the whole buffer: offset 0 and length equal to the message's, so the datagram holds exactly the message |

## Left out

- Node's `EventEmitter` (listener storage, `emit` dispatch, prototype inheritance in `ch1/counter.js:17`) is library code: the model keeps only the trace of emitted events and fans it out to the script's two registrations in registration order.
- `console.log` in the callback is output: the log is modelled as the sequence of values the callback receives.
- Node's `Readable` and `pipe` internals are library code: the pipe is modelled under the one-outstanding-pull discipline, where `_read` is called again only after the previous pull has pushed.
- The 500 ms `setTimeout` before a chunk is pushed is timing: the chunk carries the cursor value its own pull set, which is what the timer sees when only one pull is outstanding.
- The sinks (`process.stdout`, and `fs.createWriteStream` with its flags and mode) are I/O: the sink is an appending string.
- The cursor is a natural number because it starts at 0 and is only incremented; negative cursor texts never arise.
- UDP socket creation, binding, sending, receiving, the server script and `process.exit` are network and process I/O.
- SendMessage: the buffer is modelled as the message text; `Buffer.from`'s UTF-8 encoding is a library call, so the length is the character count, which equals the byte length only for ASCII messages.
- `ch2/sigint.js` (signal handling, keep-alive interval) and `ch2/nextTick-usecase.js` (event-loop deferral) are process lifecycle and scheduling, not sequential logic.
- Subscriber removal, stream cancellation and concurrent pulls have no code in these snippets, so they are not modelled; the stream's bound is the constant 10.
- Counter.Increment: JavaScript numbers are doubles, so `i++` adds exactly 1 only for integer counts below 2^53 in magnitude; the script stays within 9 to 12.
- Counter.Decrement: likewise `i--` subtracts exactly 1 only for integer counts below 2^53 in magnitude.
- Counter.New: the count is an integer; a counter created without an argument, whose payloads are NaN, is not modelled.
- Producer.Decimal matches `n + ''` only below 10^21, where JavaScript switches to exponent notation; only 1 to 10 ever reach it.
