# Syslog output of libbeat, modelled in Dafny

This project models the syslog output of libbeat
(`libbeat/outputs/syslog/client.go`): the client that turns each log event
into one syslog line `<PRI>TIMESTAMP HOSTNAME PROGRAM: MESSAGE\n` and writes
the lines of a batch, in order, to an already connected transport while
counting the lines shipped.

- `decimal.dfy`, module `DecimalText`: Go's `%d` rendering of an unsigned
  integer (`Decimal`) and the parser that reads it back (`ParseDecimal`).
- `syslog_format.dfy`, module `SyslogFormat`: the pure formatter
  `CreateSyslogString`. The client's defaults (program, priority, severity,
  hostname) come in as a `Defaults` value and are never changed. `Resolve`
  applies the per-event overrides of the event's `fields` map. `PriToken`
  is the three-way PRI rule. A line parser (`ParseLine`, `DecodePri`,
  `ProgramOf`) is the partner against which the framing is proved to
  round-trip. Go's `uint64` is modelled exactly: `uint64(int64)` of a
  negative override adds 2^64 (`ToUint64`), and `pri*8+sev` is taken
  modulo 2^64 (`PriValue`).
- `syslog_client.dfy`, module `SyslogClient`: the `Client` class. Its
  defaults are `const` fields fixed by the constructor (`newClient`, with
  the `"unknown"` hostname fallback). `PublishEvents` is a loop that, per
  event, formats, calls `Transport.Write` and bumps the shared
  `ShippedLines` counter. `PublishEvent` wraps a batch of one.

Events are typed (`Event`, `Overrides`), so the Go type assertions that
panic on a missing or mistyped `@timestamp`, `message` or override cannot
fail in the model. The timestamp arrives already rendered as RFC 3339 text
in UTC.

`PublishEvents` returns its input batch unchanged with a nil error
(`client.go:141`), although its doc comment (`client.go:132-133`) describes
the returned slice as the events not published; the model follows the code.

## Model

| member | source | states |
|---|---|---|
| `DecimalText.Decimal` | libbeat/outputs/syslog/client.go:119-121 | `%d` of an unsigned value is a nonempty string of digits whose first character is '0' exactly when the value is 0 (then it is "0") |
| `DecimalText.ParseDecimalInvertsDecimal` | libbeat/outputs/syslog/client.go:119-121 | reading the rendered digits back yields the number |
| `DecimalText.DecimalInjective` | libbeat/outputs/syslog/client.go:121 | two numbers render alike if and only if they are equal |
| `DecimalText.DecimalLength` | libbeat/outputs/syslog/client.go:119 | the rendering has exactly as many characters as the number has decimal digits (`n < 10^len`, and `10^(len-1) <= n` beyond one digit) |
| `SyslogFormat.ToUint64` | libbeat/outputs/syslog/client.go:99 | `uint64(int64)` keeps the value modulo 2^64 and leaves non-negative values unchanged |
| `SyslogFormat.Resolve` | libbeat/outputs/syslog/client.go:76-108 | each of program, priority, severity is the `fields` override when that key is present and the client default otherwise; no `fields` map gives exactly the defaults |
| `SyslogFormat.PriValue` | libbeat/outputs/syslog/client.go:121 | `priority*8+severity` in uint64 arithmetic: congruent to the exact sum modulo 2^64, equal to it when it fits |
| `SyslogFormat.CreateSyslogString` | libbeat/outputs/syslog/client.go:68-130 | the error is always nil; the line starts with `<` PRI `>` and ends with `: ` message and one added newline |
| `SyslogFormat.Lines` | libbeat/outputs/syslog/client.go:135-140 | a batch yields one line per event, the k-th line being the formatting of the k-th event |
| `SyslogFormat.PriTokenBothZero` | libbeat/outputs/syslog/client.go:116-117 | priority 0 and severity 0 give the PRI token "0" |
| `SyslogFormat.PriTokenKernel` | libbeat/outputs/syslog/client.go:118-119 | priority 0 and severity S > 0 give "0" followed by the digits of S: length 1 + digits(S), first character '0', the rest reading back to S |
| `SyslogFormat.PriTokenStandard` | libbeat/outputs/syslog/client.go:120-121 | a nonzero priority gives the digits of `priority*8+severity` (facility*8+severity, section 6.2.1 of RFC 5424), without a leading zero, when the sum fits in uint64 |
| `SyslogFormat.PriTokenRoundTrip` | libbeat/outputs/syslog/client.go:115-122 | the PRI token decodes back to (priority, severity) whenever priority is 0, or severity is below 8 and the sum does not wrap |
| `SyslogFormat.PriToken` | libbeat/outputs/syslog/client.go:115-122 | the three-way PRI rule; every token is a nonempty string of digits (so it never holds the closing `>`) and starts with '0' exactly when the priority is 0 or the uint64 sum wraps to 0; each branch is stated by `PriTokenBothZero`, `PriTokenKernel` and `PriTokenStandard`, and `PriTokenRoundTrip` decodes it back |
| `SyslogFormat.Header` | libbeat/outputs/syslog/client.go:126-127 | the `TIMESTAMP HOSTNAME PROGRAM` part of the line: the timestamp, one space, the client's hostname, one space, the effective program, each at its fixed position |
| `SyslogFormat.FrameRoundTrip` | libbeat/outputs/syslog/client.go:126-127 | splitting a formatted line at its first `>` and first `: ` gives back the PRI token, the header `TIMESTAMP HOSTNAME PROGRAM` and the message, when the header holds no `: ` |
| `SyslogFormat.LineRoundTrip` | libbeat/outputs/syslog/client.go:115-127 | from a formatted line the effective priority, severity, program (after the header's last space) and message are recovered, under the same conditions plus a program without spaces |
| `SyslogFormat.HostnameIsClients` | libbeat/outputs/syslog/client.go:126-127 | the hostname field of every line is the client's cached hostname, whatever the event holds |
| `SyslogFormat.EmptyFieldsAreNoFields` | libbeat/outputs/syslog/client.go:80-108 | a `fields` map with none of the three keys formats exactly like an event without `fields` |
| `SyslogFormat.KernelOverrideExample` | libbeat/outputs/syslog/client.go:68-130 | defaults (app, 1, 3) with overrides (kernel, 0, 6) give `<06>2024-01-01T00:00:00Z HOST kernel: boot ok\n` |
| `SyslogFormat.DefaultsExample` | libbeat/outputs/syslog/client.go:68-130 | defaults (app, 1, 3) without overrides give `<11>2024-01-01T00:00:00Z HOST app: boot ok\n` |
| `SyslogClient.ResolveHostname` | libbeat/outputs/syslog/client.go:33-37 | the cached hostname is the lookup's result, or "unknown" when the lookup failed |
| `SyslogClient.Transport.Write` | libbeat/outputs/syslog/client.go:138 | a write appends exactly its line to what the transport has carried |
| `SyslogClient.ShippedLines.Add` | libbeat/outputs/syslog/client.go:139 | the shipped-lines counter grows by exactly the amount added |
| `SyslogClient.Client.constructor` | libbeat/outputs/syslog/client.go:28-46 | the client holds the given transport, program, priority and severity, and the resolved hostname; all four defaults are immutable afterwards |
| `SyslogClient.Client.Settings` | libbeat/outputs/syslog/client.go:20-26 | the client's four defaults (program, priority, severity, hostname) as the formatter receives them; the constructor states what they hold |
| `SyslogClient.Client.PublishEvents` | libbeat/outputs/syslog/client.go:134-142 | for N events exactly N writes, in input order, the k-th carrying the k-th event's line; the counter grows by exactly N; the batch comes back unchanged with a nil error; only the transport and the counter change |
| `SyslogClient.Client.PublishEvent` | libbeat/outputs/syslog/client.go:63-66 | one write of the event's line, the counter grows by one, and the returned error is nil |
| `SyslogFormat.LinesAppend` | libbeat/outputs/syslog/client.go:134-142 | publishing two batches one after the other writes the same lines as publishing their concatenation |

## Left out

- `Connect` and `Close` (`client.go:53-61`): they delegate to the network transport, which is not part of this model; the unused `timeout` argument of `Connect` goes with them.
- `ErrNotConnected` is declared as the only `Error` value but, as in the source, nothing returns it.
- The operating system's hostname lookup is an input (`Option<string>`) of the constructor; the log message on failure is not modelled.
- `logp` debug and error logging is not modelled.
- `Transport.Write` records the line as text, not as its UTF-8 bytes; its byte count and error results, which the loop ignores, are not modelled, so a failing transport cannot be expressed.
- The `expvar` counter is a shared `ShippedLines` object with unbounded value; its registration under a global name, its atomic increments from concurrent clients and int64 wrap-around are not modelled.
- The RFC 3339 rendering and UTC conversion of `@timestamp` are library time formatting; the timestamp is an already rendered string.
- The panics of the Go type assertions on a missing or mistyped `@timestamp`, `message`, `fields` or override are excluded by typing the event.
- `SyslogFormat.CreateSyslogString`: its contract fixes the line's beginning and end; the middle (timestamp, hostname, program) is stated by `FrameRoundTrip`, `LineRoundTrip` and `HostnameIsClients`.
