# Telemetry sidecar (monitor.go) in Dafny

This project models the deterministic core of `monitor.go`. That file is a sidecar that polls the XRAY proxy's stats endpoint every five minutes and reports the result to a Telegram chat. The model covers:

- **JSON escaping** (`escapeJSON`, module `JsonEscape`). The four sequential `strings.ReplaceAll` passes are modelled as written, with a general model of `ReplaceAll`. They are proved equal to a single left-to-right per-character substitution. Their output is proved to read back, inside a JSON string literal, as exactly the original text, and the converse is proved too: every text that reads back is the escape of what it reads as. Lemmas also give the output's length, the absence of raw line breaks, exactly when the output equals the input, and exactly when the output is a valid string body under section 7 of RFC 8259.
- **Traffic formatting** (`formatTraffic`, module `Traffic`). The unit is chosen with strict thresholds. The byte branch is rendered by Go's `%d`, modelled with a decimal reader that proves the text reads back as the count. The scaled branches are modelled as an exact real amount plus a unit.
- **Stats query** (`getXRAYStats`, module `Stats`). The dial and write outcomes are inputs. The model records the socket operations and gives back the stub snapshot.
- **Delivery** (`sendTelegramMessage`, module `Telegram`). The model builds the POST request and payload. A reply counts as success only on status exactly 200.
- **Loop and startup** (`monitorConnections`, `getTelegramEnv`, `StartMonitoring`, module `Monitor`). One tick is the function `Tick`. The loop is an imperative method over a finite sequence of tick inputs, proved equal to `Tick` at every index. Startup runs no tick at all unless both the bot token and the chat id are non-empty.

Go strings are modelled as `seq<char>`, with characters standing for runes. Every pattern escapeJSON replaces is a single ASCII byte, and ASCII bytes never occur inside a multi-byte UTF-8 sequence, so byte-level and rune-level replacement agree here. `int64` is the subset type `Traffic.Int64`.

Behaviour of monitor.go worth noting:
- Delivery succeeds only when the status is exactly 200, the `!= http.StatusOK` test (monitor.go:96); other 2xx statuses are failures, as `Telegram.RejectedStatusExamples` shows for 204.
- Only backslash, double quote, LF and CR are escaped (monitor.go:106-109); other control characters pass through raw, and `JsonEscape.EscapeJSONValidJsonIff` states exactly when the output is still valid JSON.
- The stub snapshot sets only the connection count, to the sentinel `-1`; the traffic fields keep Go's zero value (monitor.go:66-68).
- A negative count takes the byte branch and prints with a minus sign (monitor.go:115).
- The chat id is put into the payload without escaping (monitor.go:77).

## Model

| member | source | states |
|---|---|---|
| `JsonEscape.ReplaceAllOneChar` | monitor.go:106-109 | A `ReplaceAll` pass whose pattern is one character replaces each occurrence of that character independently, left to right |
| `JsonEscape.ReplaceAll` | monitor.go:106-109 | Go's `strings.ReplaceAll`; its contract states only that a string in which a non-empty pattern does not occur is returned unchanged, and the one-character patterns escapeJSON uses are fully specified by `JsonEscape.ReplaceAllOneChar` |
| `JsonEscape.EscapeJSON` | monitor.go:105-111 | escapeJSON as its four ReplaceAll passes, backslash first; the result equals one per-character substitution, so backslashes inserted by later passes are never escaped again |
| `JsonEscape.QuoteFirstBreaksRoundTrip` | monitor.go:106-107 | Replacing the quote before the backslash would turn `"` into `\\"`, which no longer decodes: the order of the passes matters |
| `JsonEscape.ReadBodyOfEscapeJSON` | monitor.go:105-111 | The escaped text followed by a closing quote reads back as exactly the original, and the literal ends at that quote |
| `JsonEscape.ReadBodyOnlyOfEscapeJSON` | monitor.go:105-111 | Conversely, any string body that reads successfully is the escape of what it reads as, followed by the quote and the rest |
| `JsonEscape.UnescapeInverse` | monitor.go:105-111 | Unescaping `t` gives `s` if and only if `t` is the escape of `s` |
| `JsonEscape.UnescapeEscapeJSON` | monitor.go:105-111 | Round trip: unescaping the output of escapeJSON gives the input |
| `JsonEscape.EscapeJSONInjective` | monitor.go:105-111 | Distinct messages have distinct escapes |
| `JsonEscape.EscapeJSONNoRawLineBreaks` | monitor.go:108-109 | The output holds no raw line feed or carriage return |
| `JsonEscape.EscapeJSONLength` | monitor.go:105-111 | The output's length is the input's plus one per backslash, quote, LF or CR |
| `JsonEscape.EscapeJSONUnchangedIff` | monitor.go:105-111 | The output equals the input exactly when the input holds none of the four special characters |
| `JsonEscape.EscapeJSONValidJsonIff` | monitor.go:105-111 | The output is a valid JSON string body (section 7 of RFC 8259) exactly when the input has no control character other than LF and CR |
| `Traffic.NatDecimal` | monitor.go:116 | The `%d` digits are canonical: at least one, all decimal digits, no leading zero unless the text is `"0"`; a leading `0` only for zero |
| `Traffic.Decimal` | monitor.go:116 | Go's `%d`: a minus sign exactly for negatives, then canonical digits (no leading zero unless the text is `"0"`, never `-0`) |
| `Traffic.DecimalRoundTrip` | monitor.go:116 | `%d` text reads back as the integer, so distinct integers print differently |
| `Traffic.FormatTraffic` | monitor.go:114-125 | The byte branch is taken exactly below 1024, negatives included, and prints exactly `Decimal(bytes)` plus `" B"`, text that reads back as the count. Otherwise the amount times the unit's size is the count, and this exact amount (not its `%.2f` text) lies in [1, 1024), or is at least 1 for GB |
| `Traffic.UnitThresholds` | monitor.go:115-124 | B below 1024, KB in [1024, 1024²), MB in [1024², 1024³), GB from 1024³ on; each boundary goes to the larger unit |
| `Traffic.UnitForIsMagnitude` | monitor.go:115-124 | The chosen unit is the number of times 1024 divides into the count, capped at GB |
| `Traffic.FormatTrafficUnit` | monitor.go:114-125 | Whichever branch prints, its unit is the one the thresholds pick |
| `Traffic.FormatTrafficByteExamples` | monitor.go:115-116 | 0 prints `"0 B"`, 1023 prints `"1023 B"`, -5 prints `"-5 B"` |
| `Traffic.FormatTrafficScaledExamples` | monitor.go:118-124 | 1024, 1024² and 1024³ are 1.0 KB, MB and GB; 1536 is 1.5 KB |
| `Stats.GetXRAYStats` | monitor.go:41-70 | Dials 127.0.0.1:10085 first. A failed dial is ConnectFailed and nothing more happens. A failed write of `"StatsService\nQueryStats\n"` is SendFailed. After a successful dial the connection is closed. Success happens exactly when both calls succeed, and gives the stub snapshot |
| `Stats.SuccessfulQueryIsStub` | monitor.go:66-69 | A successful query reports `-1` connections and zero traffic, with consistent totals and each field printing `"0 B"` |
| `Telegram.Payload` | monitor.go:76-80 | The tab-exact JSON template with the chat id and the escaped message; its `"text"` literal, read after the template's prefix, is exactly the message and closes at the template's own quote |
| `Telegram.BuildRequest` | monitor.go:74-94 | A POST to `https://api.telegram.org/bot<token>/sendMessage` with content type `application/json` and the templated payload |
| `Telegram.DeliveryResult` | monitor.go:96-101 | Success exactly on status 200. Any other status is an error carrying that status and the body. Request and transport errors are passed on |
| `Telegram.SendTelegramMessage` | monitor.go:73-102 | Sends the request BuildRequest builds and reads the reply as DeliveryResult does; success exactly on status 200 |
| `Telegram.RejectedStatusExamples` | monitor.go:96-99 | 401 is rejected carrying 401, 204 is rejected, 200 succeeds |
| `Monitor.GetTelegramEnv` | monitor.go:33-38 | The two values are passed through, and monitoring is wanted exactly when both are non-empty |
| `Monitor.StartMonitoring` | monitor.go:163-173 | The loop starts, with a five-minute interval, exactly when both values are non-empty |
| `Monitor.RunMonitoring` | monitor.go:163-173 | With either value empty no tick ever runs; otherwise each tick's result is `Tick` of that tick's inputs |
| `Monitor.BuildReport` | monitor.go:141-151 | The message fields: the connection count as is, each traffic field exactly `FormatTraffic` of its counter (so in the unit the thresholds pick), and the tick's timestamp |
| `Monitor.Tick` | monitor.go:134-158 | One tick: nothing is sent exactly when the stats query fails, carrying its error; otherwise the report goes to the configured bot and chat, and the reply reads as sendTelegramMessage reads it for any message text, success only on 200 |
| `Monitor.MonitorConnections` | monitor.go:128-160 | The loop runs every tick, failures included, and the k-th result is `Tick` of the k-th input alone: no state carries across ticks |
| `Monitor.TickSendsStub` | monitor.go:140-151 | A tick whose query succeeds sends the stub report: -1, three times `"0 B"`, and the tick's timestamp |
| `Monitor.MessagesPerQuery` | monitor.go:133-159 | A run sends exactly one message per tick whose stats query succeeded |
| `Monitor.FailThenSucceed` | monitor.go:133-159 | A failing first tick followed by a succeeding one yields exactly one message, on the second tick |

## Left out

- TCP dialing, the 2-second deadline and the socket write (monitor.go:43-62) are network I/O. Their outcomes are inputs (`Stats.IoOutcome`), and the response is never read by the source.
- HTTP request sending, the 10-second client timeout and reading the response body are a foreign library plus the network. What comes back is an input (`Telegram.HttpOutcome`). The body is taken as read, since the source ignores read errors.
- `Traffic.FormatTraffic`: does not model the `%.2f` rendering of `float64(bytes)/1024^k`. The amount is the exact real quotient, so float rounding and the two printed decimals are not captured. The bound `amount < 1024` holds for the exact amount, not for the printed text: `%.2f` prints 1048575 bytes as `"1024.00 KB"` and 1073741823 bytes as `"1024.00 MB"` (monitor.go:118-122).
- The message template (monitor.go:141-151) is kept as the fields it interpolates (`Monitor.Report`), not as text. Its traffic fields need the float rendering above, and its timestamp comes from the clock.
- `time.NewTicker`, the goroutine launch and `time.Now().Format` are timers, concurrency and wall-clock. The ticker is modelled as a finite sequence of firings, each carrying its own timestamp text, so the infinite loop is modelled only through its finite prefixes.
- `os.Getenv` is environment I/O. The two values are parameters.
- The `fmt.Printf`/`Println` log lines are output only. The wording of the error values is described in comments and not modelled as strings.
- The `StatsResponse` and `Stat` types (monitor.go:15-22) are not used by any logic.
- `JsonEscape.ReplaceAll`: its contract does not specify general patterns. Left-to-right non-overlapping replacement of a pattern longer than one character, and the empty-pattern case, are given by its body only, because escapeJSON uses only one-character patterns, which `JsonEscape.ReplaceAllOneChar` specifies fully. It models Go's replacement on runes. For an empty pattern, Go inserts after each UTF-8 sequence, so this agrees only for valid UTF-8. escapeJSON never uses an empty pattern.
