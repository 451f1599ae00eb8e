# ROI reduction consumer, modelled in Dafny

This project models the ROI reduction consumer of the adaptive-beamline
tooling (`roi_reduction_consumer.py`). The consumer listens to the analysis
pipeline's 0MQ stream of bluesky documents. It reduces every integrated
diffraction pattern of a run to the area of a single peak and publishes one
summary event per run.

The model is split into five modules:

- `PyCore` (`py_core.dfy`) holds the Python behaviour the code relies on:
  - slicing with negative and out-of-range bounds;
  - `str.split` and `partition` on a separator;
  - `int()` and `float()` applied to decimal text;
  - the exceptions the code raises or catches.
- `RemoteDispatch` (`remote_dispatcher.dfy`) models the `RemoteDispatcher`
  class:
  - the prefix and address checks of `__init__`;
  - the `prefix name body` framing of `_poll`, with UTF-8 decoding of the
    name and the prefix filter;
  - which failures the `try` contains and which ones end the poll task;
  - the `start`/`stop` lifecycle.

  The socket is an inbox of received byte strings. The event loop's
  `call_soon` queue is the `scheduled` log. The deserializer is a partial
  function given to the constructor.
- `PeakArea` (`peak_area.dfy`) models `compute_peak_area`. It follows
  numpy's rules for `searchsorted`, slices, `np.diff`, the mean of an empty
  slice (NaN) and the broadcasting of the final product.
- `SampleName` (`sample_name.dfy`) models `parse_name`, including the
  Pristine special case. It also proves that names written in the beamline's
  convention are read back field by field.
- `RoiReduction` (`roi_reduction.dfy`) models:
  - the `ROIPicker` start / event_page / stop state machine, as a class over
    a publisher that logs what it sends;
  - the column means and variance of the summary event;
  - `xpdan_result_picker_factory`.

## Model

| member | source | states |
|---|---|---|
| PyCore.PySlice | ae_gpcam/bluesky_config/scripts/roi_reduction_consumer.py:254-261 | `s[i:j]` follows Python's rule for every pair of bounds: negative bounds count from the end, bounds are clamped to the sequence, and element k of the slice is element `lo + k` of `s`, where `lo` is the normalised start; in-range bounds give the plain slice |
| PyCore.ContainsWindow | ae_gpcam/bluesky_config/scripts/roi_reduction_consumer.py:268 | `"empty" in inp` holds exactly when some window of `inp` spells `empty` |
| PyCore.ReplaceChar | ae_gpcam/bluesky_config/scripts/roi_reduction_consumer.py:285 | `time.replace("p", ".")` keeps the length and turns exactly the `p` characters into points |
| PyCore.Split | ae_gpcam/bluesky_config/scripts/roi_reduction_consumer.py:272 | `split(sep)` gives one more piece than there are separators, no piece holds the separator, and joining the pieces with `sep` gives back the text |
| PyCore.SplitJoin | ae_gpcam/bluesky_config/scripts/roi_reduction_consumer.py:272 | splitting a joined list of separator-free pieces gives the pieces back |
| PyCore.Partition | ae_gpcam/bluesky_config/scripts/roi_reduction_consumer.py:81 | the cut fails exactly when the separator is absent; otherwise the text is `before + sep + after`, with no separator in `before` |
| PyCore.PartitionAfter | ae_gpcam/bluesky_config/scripts/roi_reduction_consumer.py:81 | cutting `p + sep + rest` where `p` has no separator gives back `(p, rest)`, whatever `rest` holds |
| PyCore.ParseInts | ae_gpcam/bluesky_config/scripts/roi_reduction_consumer.py:292-293 | `tuple(map(int, pieces))` succeeds exactly when every piece parses, and then element k is `int(pieces[k])` |
| PyCore.ParseIntShowNat | ae_gpcam/bluesky_config/scripts/roi_reduction_consumer.py:287 | `int(str(n)) == n` |
| PyCore.ParseFloatShowNat | ae_gpcam/bluesky_config/scripts/roi_reduction_consumer.py:286 | `float(str(n)) == n` |
| PyCore.ParseJoinedNats | ae_gpcam/bluesky_config/scripts/roi_reduction_consumer.py:292-293 | `tuple(map(int, "-".join(map(str, xs)).split("-"))) == xs` |
| PyCore.ParseInt | ae_gpcam/bluesky_config/scripts/roi_reduction_consumer.py:287 | `int()` accepts only an optional sign followed by one or more decimal digits |
| PyCore.ParseFloat | ae_gpcam/bluesky_config/scripts/roi_reduction_consumer.py:285-286 | `float()` accepts only an optional sign followed by digits and points, with at least one digit |
| PyCore.SignedShowNat | ae_gpcam/bluesky_config/scripts/roi_reduction_consumer.py:285-287 | a leading sign is read: `int("-7") == -7`, `int("+7") == 7` and `float("-7") == -7.0` |
| PeakArea.SearchSorted | ae_gpcam/bluesky_config/scripts/roi_reduction_consumer.py:249 | the result is at most `len(Q)`, every value before it is below `x`, and the value at it is at least `x` |
| PeakArea.Diff | ae_gpcam/bluesky_config/scripts/roi_reduction_consumer.py:258 | `np.diff` has one element fewer, and element k is `s[k+1] - s[k]` |
| PeakArea.Mean | ae_gpcam/bluesky_config/scripts/roi_reduction_consumer.py:261 | `np.mean` is NaN exactly for an empty window |
| PeakArea.Midpoint | ae_gpcam/bluesky_config/scripts/roi_reduction_consumer.py:261 | the background is NaN exactly when either side's mean is NaN |
| PeakArea.RegionOf | ae_gpcam/bluesky_config/scripts/roi_reduction_consumer.py:249-252 | `start` lies within `Q` and `stop` within `len(Q) + 1`; on a sorted Q with `q_start <= q_stop` the window is non-empty |
| PeakArea.Background | ae_gpcam/bluesky_config/scripts/roi_reduction_consumer.py:261 | the background is NaN exactly when one of the two three-sample windows is empty, which happens whenever the region starts at 0 or reaches the end of I |
| PeakArea.Integrate | ae_gpcam/bluesky_config/scripts/roi_reduction_consumer.py:263 | the sum raises ValueError exactly when the two arrays do not broadcast; a NaN result comes only from a NaN background; an empty product sums to 0.0 |
| PeakArea.ComputePeakArea | ae_gpcam/bluesky_config/scripts/roi_reduction_consumer.py:225-263 | the only error is ValueError; for equal-length Q and I and a region ending before the last sample it does not raise; a NaN area comes only from a NaN background |
| PeakArea.RegionIsInsertionPoints | ae_gpcam/bluesky_config/scripts/roi_reduction_consumer.py:249-252 | on a sorted Q, `start` is the insertion point of `q_start` and `stop - 1` that of `q_stop`; a non-empty window gives `start < stop` |
| PeakArea.TermsMatchReference | ae_gpcam/bluesky_config/scripts/roi_reduction_consumer.py:254-263 | for equal-length Q and I and a region ending before the last sample (`stop + 1 <= len(I)`), `I[start:stop]` and `diff(Q[start:stop+1])` have the same length, and the product is the term-by-term `(I[k] - bg) * (Q[k+1] - Q[k])` |
| PeakArea.InteriorRegion | ae_gpcam/bluesky_config/scripts/roi_reduction_consumer.py:249-263 | for a window at least three samples from both ends, both background windows hold three samples and the result is the finite reference area |
| PeakArea.OffsetInvariance | ae_gpcam/bluesky_config/scripts/roi_reduction_consumer.py:259-263 | adding a constant to every intensity leaves the result unchanged for every input, NaN and ValueError cases included |
| PeakArea.StartAtZeroGivesNaN | ae_gpcam/bluesky_config/scripts/roi_reduction_consumer.py:261-263 | a region starting at index 0 has an empty left background window, so the area is NaN, or 0.0 for an empty product |
| PeakArea.WorkedExample | ae_gpcam/bluesky_config/scripts/roi_reduction_consumer.py:225-263 | a triangular peak 5, 10, 10, 5 on a zero background with unit bins integrates to 30 |
| SampleName.ParseName | ae_gpcam/bluesky_config/scripts/roi_reduction_consumer.py:266-283 | `None` is returned exactly for a name containing "empty", one with neither 3 nor 4 underscores, and a 4-part name whose second part is not Pristine; every other name is read or raises, and the only error is ValueError |
| SampleName.Convert | ae_gpcam/bluesky_config/scripts/roi_reduction_consumer.py:285-294 | the conversions raise ValueError exactly when one of the six `float`/`int` conversions fails; otherwise the dict holds each converted field, the second composition key winning a key clash |
| SampleName.FivePartName | ae_gpcam/bluesky_config/scripts/roi_reduction_consumer.py:272-294 | a five-part name is never skipped: it raises ValueError exactly when one of its conversions fails, and otherwise equals the conversions of its five fields: the temperature from `float(temp[:-1])`, the anneal time from `float(time.replace("p", ".")[:-3])`, the composition dict, the batch and the position |
| SampleName.PristineConstants | ae_gpcam/bluesky_config/scripts/roi_reduction_consumer.py:277-286 | the Pristine defaults "25C" and "0min" read as 25.0 degrees and 0.0 minutes |
| SampleName.PristineDefaults | ae_gpcam/bluesky_config/scripts/roi_reduction_consumer.py:274-293 | a Pristine name fails exactly when its composition, batch or position does not parse; otherwise it is read at 25 degrees with no anneal time, exactly as the five-part conversions of `25C` and `0min` |
| SampleName.CompositionRead | ae_gpcam/bluesky_config/scripts/roi_reduction_consumer.py:287 | `Ti50Cu50`-style text yields both element symbols and both amounts |
| SampleName.TimeRead | ae_gpcam/bluesky_config/scripts/roi_reduction_consumer.py:285 | `2p5min` reads as 2.5 and `2min` as 2: `p` is the decimal point and `min` is dropped |
| SampleName.ParseFormattedName | ae_gpcam/bluesky_config/scripts/roi_reduction_consumer.py:266-294 | a well-formed five-part name is parsed back to its composition map, temperature, anneal time, batch and position |
| RemoteDispatch.SplitAddress | ae_gpcam/bluesky_config/scripts/roi_reduction_consumer.py:58-61 | a text address without a colon raises IndexError; one with a colon raises ValueError exactly when the text after the first colon is not an integer, and otherwise yields the text before it and that integer; a pair keeps its host and passes its port through `int()` |
| RemoteDispatch.PortValue | ae_gpcam/bluesky_config/scripts/roi_reduction_consumer.py:61 | `int(port)` keeps an int, reads integer text, and raises ValueError on any other text |
| RemoteDispatch.AddressRoundTrip | ae_gpcam/bluesky_config/scripts/roi_reduction_consumer.py:58-61 | `'host:port'` splits back into the host and the integer port |
| RemoteDispatch.NonIntegerPortRejected | ae_gpcam/bluesky_config/scripts/roi_reduction_consumer.py:58-61 | `'host:port'` with a port that is not an integer raises ValueError |
| RemoteDispatch.Configure | ae_gpcam/bluesky_config/scripts/roi_reduction_consumer.py:49-61 | a `str` prefix and a prefix holding a space raise ValueError; construction succeeds exactly for a bytes prefix without a space and a valid address, and keeps both |
| RemoteDispatch.Encode | ae_gpcam/bluesky_config/scripts/roi_reduction_consumer.py:81 | the wire form is the prefix, a space, the name, a space and the body, each at its place |
| RemoteDispatch.SplitFrame | ae_gpcam/bluesky_config/scripts/roi_reduction_consumer.py:81 | the three parts re-encode to the message; the prefix and the name hold no space |
| RemoteDispatch.SplitFrameNeedsTwoSpaces | ae_gpcam/bluesky_config/scripts/roi_reduction_consumer.py:81 | the unpacking fails exactly when the message has fewer than two spaces |
| RemoteDispatch.FrameRoundTrip | ae_gpcam/bluesky_config/scripts/roi_reduction_consumer.py:81 | splitting an encoded frame gives it back, even when the body holds spaces |
| RemoteDispatch.LookupName | ae_gpcam/bluesky_config/scripts/roi_reduction_consumer.py:86 | `DocumentNames[name]` finds the member whose name has exactly these bytes, and fails only when no member does |
| RemoteDispatch.LookupNameBytes | ae_gpcam/bluesky_config/scripts/roi_reduction_consumer.py:86 | every document name is found under its own bytes |
| RemoteDispatch.NameBytesAreUtf8 | ae_gpcam/bluesky_config/scripts/roi_reduction_consumer.py:82 | every document name is well-formed UTF-8 and holds no space, so it survives framing and `decode()` |
| RemoteDispatch.HandleMessage | ae_gpcam/bluesky_config/scripts/roi_reduction_consumer.py:80-89 | one message escapes exactly when the split or the decode fails; a filtered message has a foreign prefix; a dispatched one has an accepted prefix, the name's bytes and the deserialized body; a dropped one failed deserialization or name lookup |
| RemoteDispatch.AcceptedFrameDispatched | ae_gpcam/bluesky_config/scripts/roi_reduction_consumer.py:83-86 | a frame under an accepted prefix is scheduled with its document, or dropped when the body does not deserialize |
| RemoteDispatch.ForeignPrefixFiltered | ae_gpcam/bluesky_config/scripts/roi_reduction_consumer.py:83 | with a configured prefix, a frame under another prefix is ignored whatever its body |
| RemoteDispatch.FailuresContained | ae_gpcam/bluesky_config/scripts/roi_reduction_consumer.py:84-89 | a deserializer failure or an unknown name is caught: nothing is scheduled and the loop goes on |
| RemoteDispatch.ShortMessageEscapes | ae_gpcam/bluesky_config/scripts/roi_reduction_consumer.py:81 | a message with fewer than two spaces raises ValueError outside the `try` |
| RemoteDispatch.EmptyPrefixFiltersNothing | ae_gpcam/bluesky_config/scripts/roi_reduction_consumer.py:83 | an empty configured prefix never filters a message out |
| RemoteDispatch.Collect | ae_gpcam/bluesky_config/scripts/roi_reduction_consumer.py:79-89 | the loop schedules at most one call per message, and a crash names a message that was read |
| RemoteDispatch.CollectCrashIsFirstEscape | ae_gpcam/bluesky_config/scripts/roi_reduction_consumer.py:79-89 | the loop crashes exactly when some message escapes, and the crash is the first such message with its error |
| RemoteDispatch.CollectAllDispatched | ae_gpcam/bluesky_config/scripts/roi_reduction_consumer.py:79-86 | when every message is dispatched, all are scheduled in arrival order and the loop does not crash |
| RemoteDispatch.CollectSchedulesUntilEscape | ae_gpcam/bluesky_config/scripts/roi_reduction_consumer.py:79-89 | `_poll` over an inbox schedules the calls of every message before the first one that escapes, in arrival order; filtered and dropped messages add nothing and do not stop the messages after them |
| RemoteDispatch.SkippedMessageContinues | ae_gpcam/bluesky_config/scripts/roi_reduction_consumer.py:83-89 | removing a filtered or dropped message from the inbox does not change what the loop schedules |
| RemoteDispatch.AllAcceptedScheduledInOrder | ae_gpcam/bluesky_config/scripts/roi_reduction_consumer.py:77-86 | an inbox of accepted frames whose bodies deserialize schedules every document under its name, in order |
| RemoteDispatch.RemoteDispatcher.constructor | ae_gpcam/bluesky_config/scripts/roi_reduction_consumer.py:46-75 | the dispatcher keeps the validated prefix, host, port and deserializer; it starts with no task, not closed, and nothing scheduled |
| RemoteDispatch.RemoteDispatcher.Poll | ae_gpcam/bluesky_config/scripts/roi_reduction_consumer.py:77-89 | consuming the inbox appends exactly the loop's scheduled calls and ends with its crash, if any |
| RemoteDispatch.RemoteDispatcher.Receive | ae_gpcam/bluesky_config/scripts/roi_reduction_consumer.py:79-89 | the receive loop appends each dispatched document in order and stops at the first message that escapes |
| RemoteDispatch.RemoteDispatcher.Start | ae_gpcam/bluesky_config/scripts/roi_reduction_consumer.py:91-101 | on a closed dispatcher: RuntimeError and nothing changes; otherwise one task is created, the inbox is polled, then the interrupt stops the dispatcher (task cancelled, loop stopped, closed) and is re-raised |
| RemoteDispatch.RemoteDispatcher.Stop | ae_gpcam/bluesky_config/scripts/roi_reduction_consumer.py:103-108 | a running task is cancelled and the loop stopped; the dispatcher always ends closed with no task, and nothing is scheduled; a task is never cancelled twice, and only created tasks are cancelled |
| RemoteDispatch.StopTwice | ae_gpcam/bluesky_config/scripts/roi_reduction_consumer.py:103-108 | a second `stop()` cancels nothing more |
| RoiReduction.Publisher.Publish | ae_gpcam/bluesky_config/scripts/roi_reduction_consumer.py:125 | each call appends one `(name, doc)` pair to the sent log |
| RoiReduction.DataKeys | ae_gpcam/bluesky_config/scripts/roi_reduction_consumer.py:130-164 | the descriptor declares exactly the five row keys, each a computed scalar number |
| RoiReduction.RowData | ae_gpcam/bluesky_config/scripts/roi_reduction_consumer.py:191-199 | each row dict has exactly the five row keys |
| RoiReduction.ControlsFor | ae_gpcam/bluesky_config/scripts/roi_reduction_consumer.py:175-187 | a run with a sample name mirrors the controls 1.0, 2 and 3.0; one without mirrors 4.0, 5 and 6.0 |
| RoiReduction.Centre | ae_gpcam/bluesky_config/scripts/roi_reduction_consumer.py:194 | `Q_00` is the midpoint of the peak window, equally far from both ends and inside the window |
| RoiReduction.Zip | ae_gpcam/bluesky_config/scripts/roi_reduction_consumer.py:189 | `zip` pairs elements up to the shorter input |
| RoiReduction.Reduce | ae_gpcam/bluesky_config/scripts/roi_reduction_consumer.py:189-200 | one row per pair until an area computation raises; the rows before it stay, the error is that pair's, and each row carries its area, the centre and the controls |
| RoiReduction.ReduceStaysFailed | ae_gpcam/bluesky_config/scripts/roi_reduction_consumer.py:189-200 | once a pair has raised, later pairs change nothing |
| RoiReduction.PageReduction | ae_gpcam/bluesky_config/scripts/roi_reduction_consumer.py:175-200 | an unparsable sample name raises ValueError before any row; missing `q` or `mean` columns raise KeyError |
| RoiReduction.PageRows | ae_gpcam/bluesky_config/scripts/roi_reduction_consumer.py:175-200 | a page that reduces fully adds `min(len(q), len(mean))` rows, each with its pattern's area, the window centre and the sample's controls |
| RoiReduction.MeanNum | ae_gpcam/bluesky_config/scripts/roi_reduction_consumer.py:216 | a column mean is NaN exactly when the column is empty or holds a NaN |
| RoiReduction.VarNum | ae_gpcam/bluesky_config/scripts/roi_reduction_consumer.py:217 | the variance is NaN in the same cases, and otherwise non-negative |
| RoiReduction.MeanOfConstant | ae_gpcam/bluesky_config/scripts/roi_reduction_consumer.py:216 | the mean of a constant column is that constant |
| RoiReduction.VarianceOfConstant | ae_gpcam/bluesky_config/scripts/roi_reduction_consumer.py:217 | the variance of a constant column is zero |
| RoiReduction.EventData | ae_gpcam/bluesky_config/scripts/roi_reduction_consumer.py:215-217 | the event has the five row keys plus `I_00_variance`; each row key holds its column mean, and the variance is that of `I_00` |
| RoiReduction.Timestamps | ae_gpcam/bluesky_config/scripts/roi_reduction_consumer.py:212-218 | every data key is stamped with the same time |
| RoiReduction.EventControls | ae_gpcam/bluesky_config/scripts/roi_reduction_consumer.py:194-198 | rows of one sample report the window centre as `Q_00` and the controls unchanged |
| RoiReduction.EventArea | ae_gpcam/bluesky_config/scripts/roi_reduction_consumer.py:216-217 | `I_00` and `I_00_variance` are NaN exactly when some area is NaN, and the variance is otherwise non-negative; when every area is finite, `I_00` is the mean of the areas |
| RoiReduction.StopPublications | ae_gpcam/bluesky_config/scripts/roi_reduction_consumer.py:214-222 | with rows buffered: an event carrying the summary data, then the stop document; with none: only the stop document |
| RoiReduction.ROIPicker.constructor | ae_gpcam/bluesky_config/scripts/roi_reduction_consumer.py:112-117 | a new picker shares the publisher, keeps the peak window, and has no run, no descriptor and no buffer |
| RoiReduction.ROIPicker.Start | ae_gpcam/bluesky_config/scripts/roi_reduction_consumer.py:119-125 | a missing `original_start_uid` raises KeyError before any change; a missing `uid` raises KeyError after the source uid and sample name are recorded; otherwise the run is opened and its start published |
| RoiReduction.ROIPicker.EventPage | ae_gpcam/bluesky_config/scripts/roi_reduction_consumer.py:127-200 | without an opened run: AttributeError. The first page publishes the descriptor once and creates the buffer; every page appends its rows, and its error, if any, escapes |
| RoiReduction.ROIPicker.AddPage | ae_gpcam/bluesky_config/scripts/roi_reduction_consumer.py:175-200 | the buffer grows by exactly the page's reduced rows, and the page's error is raised |
| RoiReduction.ROIPicker.AppendRows | ae_gpcam/bluesky_config/scripts/roi_reduction_consumer.py:189-200 | the loop appends the rows `Reduce` describes and raises its failure |
| RoiReduction.ROIPicker.Stop | ae_gpcam/bluesky_config/scripts/roi_reduction_consumer.py:210-222 | with no page seen: TypeError and nothing published; otherwise the summary event (if rows were buffered) and then the stop document |
| RoiReduction.WantsRun | ae_gpcam/bluesky_config/scripts/roi_reduction_consumer.py:300 | a run is routed exactly when its `analysis_stage` is present and equal to "integration"; a missing key is not routed |
| RoiReduction.XpdanResultPicker | ae_gpcam/bluesky_config/scripts/roi_reduction_consumer.py:297-305 | integration runs get one fresh picker sharing the publisher; other runs get none |
| RoiReduction.ReduceRun | ae_gpcam/bluesky_config/scripts/roi_reduction_consumer.py:119-222 | over a whole run, the publisher sees start, descriptor (once), the summary event if rows were buffered, and stop, in that order; a run without pages fails at stop after publishing only its start |

## Left out

- The 0MQ sockets and the asyncio event loop are not modelled:
  - the socket is an inbox of byte strings;
  - `create_task`, `run_forever`, `call_soon` and `cancel` become a task counter, a running flag, a log of scheduled calls and a log of cancelled tasks;
  - `loop`, `zmq` and `zmq_asyncio` are not parameters of the model.
- `process` and the subscribers it calls are not modelled; the model records the calls scheduled with `call_soon`, not their execution.
- `pickle.loads` and `womp_womp` (lines 308-318) are not modelled. The deserializer is any partial function, so `womp_womp`'s effect on a document is outside the model.
- The `DocumentNames` enum lives in event_model and is not part of this model; it is taken to hold the ten document names of the event model.
- RemoteDispatch.RemoteDispatcher.Start: `run_forever` never returns on its own, so the model takes the interrupt to arrive after the inbox is consumed. A crash of the poll task is not surfaced by `start()`.
- RemoteDispatch.SplitAddress: a tuple address with fewer than two elements and a port other than an int or text are not modelled.
- `int()` and `float()` are modelled on signed decimal text only. Surrounding whitespace, digit underscores, exponents, `inf`, `nan` and non-ASCII digits are not modelled.
- Floats are modelled as real numbers, so rounding is not modelled. NaN is modelled, because the mean of an empty background window produces it.
- PeakArea.SearchSorted: the result is the least index whose value is at least `x`; this is numpy's answer only on a sorted Q. numpy's binary search on an unsorted Q is not modelled.
- Only the fields this code sets or reads are modelled for the `compose_run`, `compose_descriptor`, `compose_event` and `compose_stop` documents. Their uids are random, so they are passed in. `seq_num`, `time` and `exit_status` are not modelled.
- `compose_run`, `compose_descriptor`, `compose_event` and `compose_stop` are taken never to raise. In particular, the summary event carries `I_00_variance`, which the descriptor (lines 130-164) does not declare among its data keys. If event_model checks event keys against the descriptor, as its published versions do by default, that `compose_event` call raises. event_model is not part of this model.
- `time.time()` is passed to `stop` as a parameter.
- An event page without a `data` key is not modelled: `PageDoc` always has a data map.
- `Broker.named("xpd")` in the picker's constructor is not modelled.
- Printing (`print`, `pprint`) is not modelled.
- The command-line glue at lines 321-351 is not modelled: argument parsing, the publisher, the `RunRouter` subscription and `start()`.
- `companion/xca.py` and `adaptive_gpcam_count.py` are not part of this model.
- RoiReduction.XpdanResultPicker: it returns the list of callbacks; the always-empty second list of the `(callbacks, subfactories)` pair is not returned.
- RoiReduction.ROIPicker.Stop: a run that received no event page ends with a TypeError at `stop`, as the code does (`len(None)`). It does not close cleanly without an event.
