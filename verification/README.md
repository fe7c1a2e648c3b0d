# KNX exporter: event handling, modelled in Dafny

The KNX exporter connects to a KNX/IP gateway. It listens for group telegrams
addressed to configured devices and exposes the decoded temperatures as a
Prometheus gauge vector named `knx_temperature_celsius`. This project models
the event handling in `main.go` and proves properties about it:

- **Device matching.** The inbound loop walks the configured devices in
  order. It hands each telegram, with the *first* device whose group address
  equals the telegram's destination, to the update. A telegram that no
  device is addressed by is dropped.
- **Label derivation.** A device's three `uint8` address components become
  the label set `{knx_addr = "M_m_s", name, knx_maingroup, knx_middlegroup,
  knx_subgroup}`, rendered with `strconv.Itoa`.
- **Metric update.** For a `DPT_9001` device, the device's series is set
  (upserted) to the decoded value. A `DPT_1001` device, or any other type
  tag, changes nothing.
- **Start-up poller.** One `GroupRead` is sent per configured device, in
  configuration order. The pass stops at the first send that fails.

Modules, one per component:

| file | module | contents |
|---|---|---|
| `options.dfy` | `Options` | `Option` |
| `knx.dfy` | `Knx` | `uint8`, group telegrams, the abstract address constructor and DPT 9.001 decoder |
| `decimal.dfy` | `Decimal` | `strconv.Itoa` for non-negative values and its inverse `ParseDecimal` |
| `config.dfy` | `Config` | the `DeviceConfig` record and the type tags |
| `labels.dfy` | `Labels` | the label set of a device's series |
| `metrics.dfy` | `Metrics` | exporter state and `UpdatePrometheus` |
| `dispatch.dfy` | `Dispatch` | first-match search, per-telegram handling and the receive loop |
| `poller.dfy` | `Poller` | the start-up read requests |

Two pieces of the KNX library stay abstract:

- **The group-address constructor.** `cemi.NewGroupAddr3` is a parameter
  `pack: Pack<A>` over an address type `A`. Only the equality of packed
  addresses is used.
- **The DPT 9.001 decoder.** The two-octet float decoding is a parameter
  `unpack: Unpack<V>`. It returns the value the receiver holds after the
  call, together with the error the call returned.

The gauge value type `V` is left uninterpreted, so no floating-point
arithmetic is involved. The gateway's answer to each start-up send is a
parameter, `gateway: nat -> Option<TransportError>`, indexed by the send's
position in the pass.

The code handles four cases differently from what a stricter exporter would
do. The model follows the code in each:

- Duplicate group addresses are accepted rather than rejected at load time.
  The first device in configuration order wins
  (`Dispatch.LaterDuplicateNeverUsed`).
- A payload that fails to decode is not dropped. The decoder's error is
  assigned to a global, and `Set` is still called with whatever the receiver
  holds (`Metrics.UpdatePrometheus`).
- The `DPT_1001` (boolean status) branch is empty, so status telegrams are
  never decoded.
- The telegram's command is never inspected, so reads and responses are
  dispatched like writes (`Dispatch.CommandIgnored`).

## Model

| member | source | states |
|---|---|---|
| Decimal.Itoa | main.go:141-143 | the rendering is a canonical decimal (digits only, no leading zero) that parses back to the value, and starts with '0' only for zero |
| Decimal.ItoaUnique | main.go:141-143 | every canonical decimal string is the rendering of its own value, so `Itoa` is the unique canonical form |
| Decimal.ItoaInjective | main.go:141-143 | two values render to the same string exactly when they are equal |
| Decimal.ItoaLengthBound | main.go:141-143 | the rendering has at most k digits exactly when the value is below 10^k |
| Decimal.ItoaWidth | main.go:27-29 | the rendering has 1, 2 or 3 digits exactly for values in 0..9, 10..99 and 100..999 respectively |
| Labels.ComponentLabel | main.go:141-143 | a `uint8` component label is a canonical decimal of 1 to 3 digits whose value is the component |
| Labels.LabelsOf | main.go:136-143 | the label names are exactly the five declared names; `name` is the device name; each component label renders its component; `knx_addr` is the three component labels joined by underscores |
| Labels.LabelsOfInjective | main.go:138-143 | two devices share a label set if and only if they have the same name and the same three address components |
| Labels.AddrLabelInjective | main.go:136 | equal `knx_addr` labels imply equal main, middle and sub groups |
| Metrics.UpdatePrometheus | main.go:125-146 | for `DPT_9001`: the device's series now holds the receiver value, whether or not the decoder failed; the series set grows by that one key; other series keep their values; the decoder's error is recorded. For any other tag (including `DPT_1001`) the state is unchanged |
| Metrics.UpdateReplaces | main.go:138-144 | a second update of the same device replaces the first: the result equals applying only the second |
| Metrics.UpdatesCommute | main.go:88 | updates of devices with different label sets give the same gauge vector in either order |
| Dispatch.FirstMatch | main.go:85-91 | returns the index of a device addressed by the destination with none before it, or nothing exactly when no device is addressed by it; any index with that property is the one returned |
| Dispatch.MatchDevice | main.go:85-91 | the scan that stops at the first hit has the first-match characterisation and agrees with `FirstMatch` |
| Dispatch.HandleEvent | main.go:85-91 | a telegram addressed to no configured device leaves the whole state, last error included, unchanged; otherwise the result is the update (`Metrics.UpdatePrometheus`) called with the first device, in configuration order, whose group address (`Config.GroupAddrOf`) equals the destination |
| Dispatch.HandleEventEffect | main.go:85-91 | a telegram sets the series it writes (the first matching device's series, when that device is `DPT_9001`) to the decoded value and keeps every other series |
| Dispatch.LaterDuplicateNeverUsed | main.go:85-91 | changing the name or type tag of a later device that shares an earlier device's address changes nothing |
| Dispatch.CommandIgnored | main.go:83-91 | handling does not depend on the telegram's command |
| Dispatch.Run | main.go:83-96 | handling a finite stream of telegrams in arrival order never removes a series |
| Dispatch.RunLastTelegram | main.go:83-96 | across the last telegram of a stream, the series it writes holds the decoded payload and every other series keeps its presence and value |
| Dispatch.Serve | main.go:83-96 | the receive loop over a finite stream yields the state of handling each telegram in turn |
| Dispatch.RunIgnoresUnaddressed | main.go:83-96 | a stream with no telegram addressed to a configured device leaves the state unchanged |
| Dispatch.RunLastWriteWins | main.go:83-96 | after a stream, a series holds the value decoded from the last telegram that writes it |
| Dispatch.RunUntouchedSeries | main.go:83-96 | a series no telegram writes keeps its presence and its value |
| Dispatch.RunSeriesOwned | main.go:83-96 | every series that appears during a stream is the label set of a configured `DPT_9001` device |
| Poller.UpdateMetrics | main.go:149-162 | the n-th request sent (`Poller.ReadRequest`) is a `GroupRead` with no payload addressed to the n-th device; all sends before the last succeeded; the pass ends without error exactly when every device got its request and every send succeeded; otherwise it ends at the first failed send, with that send's error, and later devices get nothing |
| Poller.PolledAddressesAreDispatched | main.go:150-156 | the destination of each start-up request is matched by the inbound loop, to the polled device or to an earlier one with the same address |

## Left out

- Flag definitions, `init` and `readConfig` (command-line parsing and YAML file reading) are I/O glue. The configuration is given as a `seq<DeviceConfig>`.
- `startServer` (landing page, metrics HTTP handler, metric registration) is network I/O over the Prometheus library. A scrape would read the `temperature` map.
- Connecting to and closing the gateway tunnel, and the `Inbound()` channel, are transport. The inbound stream is a finite `seq` of telegrams.
- The goroutines behind `go updatePrometheus`, `go updateMetrics` and `go startServer` are not modelled. Each update is one atomic map write, applied in arrival order. `Metrics.UpdatesCommute` shows that the gauge vector's order only matters within one series. The last-error variable keeps the error of whichever update ran last.
- The bit packing inside `cemi.NewGroupAddr3` is library code. It is the abstract `pack` parameter, so addresses that the library would fold together by masking are equal only if `pack` says so.
- DPT 9.001 decoding (`dpt.DPT_9001.Unpack`) is library code. It is the abstract `unpack` parameter, and the float64 conversion of its result is folded into the opaque value type.
- The `if err != nil { continue }` at the end of the receive loop has no effect on control flow. The global `err` it reads is the `State.lastError` that the update writes.
- The telegram's source address is not used by the event handling and is not part of `GroupEvent`.
- `log.Fatal` on a failed start-up send ends the process. The model returns the error as `fatal` and stops the pass.
- Dereferencing a nil entry of `config.Devices` (a null YAML entry) would panic. Devices are values here, so that case does not arise.
