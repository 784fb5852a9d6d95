# FA-5 frequency counter: protocol layer and command scheduler

This project is a Dafny model of the logic behind the desktop application
for the BG7TBL FA-5 frequency counter, which talks to the counter over a
serial line. It covers two parts.

- **The protocol layer** (`fa5usbdata.py`):
  - the command table and the gate-time command builder;
  - the decoder that classifies each received line into measurements and
    a partial settings report;
  - the settings tracker, which merges those reports;
  - the measurement log, which stores time-stamped frequency and power
    samples and computes statistics over them;
  - the helper that groups the digits of a decimal number in threes.
- **The command scheduler** (`ui_main.py`): commands wait in a FIFO queue,
  and the next one is sent only after the counter has answered the
  previous one.

Time, the serial port and the GUI become parameters or ghost state. The
files are:

- `wrappers.dfy` has the Option and Result types.
- `pystr.dfy` holds the Python string operations the code relies on:
  `strip`, slicing with negative and clamped bounds, `in`, `split`.
- `numbers.dfy` holds `int()`, `Decimal()`, `str(Decimal)`, `zfill`,
  `round` and an exact `floor(log10)`.
- `commands.dfy` has the command table and `make_gate_time_command`.
- `settings.dfy` has `FASettings` and its merge.
- `decoder.dfy` has `preprocess_string` and `channel_to_text`.
- `grouping.dfy` has `group_spaces`.
- `statistics.dfy` has the read-only `MeasureLog` queries and
  `get_freq_difference`.
- `measurelog.dfy` has the `MeasureLog` class.
- `scheduler.dfy` has the queue, the flags and the button handlers of
  the main window.

A Python `Decimal` is modelled exactly: an integer coefficient and a
number of places, whose value is a `real`. Timestamps are `real`
seconds. Every call of `time.time()` inside one operation is the
parameter `now`. The serial port is the ghost sequence `written` of the
strings sent to it.

Three behaviours of the code that are easy to misread:

- A power reply is recognised by `POK` anywhere in the stripped line,
  because the code tests `'POK' in s`. It is not required at the end.
- A gate-time reply whose field is not an integer makes `int()` raise,
  and nothing catches it. `Decoder.Preprocess` returns `Err` for it, and
  `MeasureLogs.MeasureLog.AddString` then reports failure after the
  pending reset has happened.
- `ReadDataFromThread` requires a non-empty line while the port is
  established, because `serial_data[0]` raises on an empty string. The
  reader thread only ever passes lines ending in CR LF.

## Model

| member | source | states |
|---|---|---|
| PyStr.TrimLeftSpec | fa5usbdata.py:152 | what `lstrip` keeps is a suffix that does not start with whitespace, and everything it drops is whitespace |
| PyStr.TrimRightSpec | fa5usbdata.py:152 | what `rstrip` keeps is a prefix that does not end with whitespace, and everything it drops is whitespace |
| PyStr.StripEnds | fa5usbdata.py:152 | the result of `strip()` neither starts nor ends with whitespace |
| PyStr.StripRemovesSpaceOnly | fa5usbdata.py:152 | `strip()` removes only whitespace, only at the two ends, and keeps the middle as it is |
| PyStr.StripUnchanged | fa5usbdata.py:152 | a string without whitespace at its ends is left alone by `strip()` |
| PyStr.StripSurrounding | fa5usbdata.py:152 | whitespace around a line, such as its CR LF terminator, is removed by `strip()` and nothing else is |
| PyStr.SliceIndex | fa5usbdata.py:163 | a slice bound is counted from the end when negative, then clamped into `[0, len]` |
| PyStr.Slice | fa5usbdata.py:163-190 | `s[a:b]` has the length of the clamped range (0 when empty), and each character is the one at the clamped start plus its offset |
| PyStr.SliceTail | fa5usbdata.py:165 | `s[-k:]` is the last `k` characters, or the whole string when it is shorter |
| PyStr.ContainsIffOccurs | fa5usbdata.py:160-161 | `pat in s` holds exactly when `pat` occurs at some position of `s` |
| PyStr.ContainsAt | fa5usbdata.py:160 | an occurrence at a known position makes `pat in s` true |
| PyStr.Split | fa5usbdata.py:188 | `split(sep)` yields at least one field, and no field contains the separator |
| PyStr.JoinSplit | fa5usbdata.py:188 | joining the fields of `split(sep)` with `sep` gives back the string |
| PyStr.SplitFirst | fa5usbdata.py:188 | when `a` has no separator, `split` of `a + sep + b` is `a` followed by the fields of `b` |
| PyStr.SplitNone | fa5usbdata.py:188 | `split` of a string without the separator is that string alone |
| PyStr.SplitThree | fa5usbdata.py:188 | `split` of `a + sep + b + sep + c`, none holding the separator, is exactly `[a, b, c]` |
| Numbers.DigitChar | fa5usbdata.py:19 | the digit character of `d < 10` is a digit whose value is `d` |
| Numbers.NatToString | fa5usbdata.py:19 | `str(n)` is a non-empty run of digits without a leading zero |
| Numbers.NatToStringValue | fa5usbdata.py:19 | reading `str(n)` back as digits gives `n` |
| Numbers.NatToStringLength | fa5usbdata.py:19 | a number below `10^k` has at most `k` digits |
| Numbers.ZFill | fa5usbdata.py:19 | `zfill(w)` has length `max(len, w)` and leaves a string of width at least `w` alone |
| Numbers.LeadingZeros | fa5usbdata.py:19 | zeros put in front of digits do not change their value |
| Numbers.ZFillSigned | fa5usbdata.py:19 | `zfill` puts its zeros after the sign and before the digits |
| Numbers.ParseIntSignedDigits | fa5usbdata.py:166 | `int()` of an optional `-` and digits is their signed value |
| Numbers.ParseIntZFill | fa5usbdata.py:19 | `int(str(i).zfill(w)) == i` for every integer `i` and width `w` |
| Numbers.ParseIntRejectsTrailing | fa5usbdata.py:166 | `int()` raises on a string ending in a character that is neither a digit nor whitespace |
| Numbers.IndexOf | fa5usbdata.py:230 | finding the decimal point of a `Decimal()` literal: the index found holds the point and nothing before it does; no index means the literal has no point |
| Numbers.DecimalValue | fa5usbdata.py:230 | a `Decimal` is positive or zero exactly when its coefficient is |
| Numbers.DigitsValueConcat | fa5usbdata.py:230 | appending digits `b` to digits `a` multiplies `a`'s value by `10^len(b)` and adds `b`'s |
| Numbers.ParseToken | fa5usbdata.py:166-230 | `int()` and `Decimal()` of a string without surrounding whitespace skip the strip |
| Numbers.ParseDecimalPoint | fa5usbdata.py:230 | `Decimal("[-]ip.fp")`, with either part possibly empty but not both (so `".5"` and `"5."` too), has all the digits as coefficient and `len(fp)` places |
| Numbers.ParseDecimalDigits | fa5usbdata.py:230 | `Decimal("[-]ds")` is the signed integer the digits denote |
| Numbers.DecimalToString | fa5usbdata.py:117 | `str(Decimal)` is non-empty and contains a point exactly when the value has places |
| Numbers.DecimalStringRoundTrip | fa5usbdata.py:117-230 | `Decimal(str(d)) == d`, coefficient and places both, for every `Decimal` in positional notation |
| Numbers.ParseDecimalCharset | fa5usbdata.py:230 | a string `Decimal()` accepts holds only whitespace, a sign, digits and a point |
| Numbers.Pow10RMonotone | fa5usbdata.py:252 | powers of ten grow with the exponent |
| Numbers.RoundHalfEven | fa5usbdata.py:253-338 | `round(x)` is within one half of `x`, and a tie goes to the even neighbour |
| Numbers.RoundToNear | fa5usbdata.py:253-338 | `round(x, d)` is within half a unit of the `d`-th decimal place of `x` |
| Numbers.FloorLog10 | fa5usbdata.py:252 | `floor(log10(y))` is the `k` with `10^k <= y < 10^(k+1)` |
| Numbers.FloorLog10Unique | fa5usbdata.py:252 | that `k` is the only exponent that brackets `y` |
| Commands.Payload | fa5usbdata.py:24-74 | every command of the table begins with `$` and ends with `*` |
| Commands.MakeGateTimeCommand | fa5usbdata.py:18-21 | the command starts with `$A` and ends with `*`, and is exactly eight characters long for 0 to 99999 ms |
| Commands.GateTimeCommandRoundTrip | fa5usbdata.py:18-21 | `int(cmd[2:-1])` of a gate-time command gives back the milliseconds it was made from |
| Commands.FixedGateTimeCommands | fa5usbdata.py:47-50 | the four `SET_GATE_TIME_*` members are exactly the commands built for 100, 1000, 2000 and 20000 ms |
| Settings.Merge | fa5usbdata.py:94-106 | the gate time is overwritten exactly when the report's is positive |
| Settings.MergeFields | fa5usbdata.py:94-104 | each optional field is overwritten exactly when the report carries it |
| Settings.MergeNoChange | fa5usbdata.py:94-106 | an empty report changes nothing |
| Settings.MergeIdempotent | fa5usbdata.py:94-106 | merging the same report twice equals merging it once |
| Settings.MergeAssociative | fa5usbdata.py:94-106 | two reports merged one after the other equal their own merge merged at once |
| Settings.MergeKeepsKnown | fa5usbdata.py:94-106 | a known field never becomes unknown again, and a positive gate time stays positive |
| Settings.FASettings.constructor | fa5usbdata.py:86-92 | a new `FASettings` knows nothing |
| Settings.FASettings.UpdateSettings | fa5usbdata.py:94-106 | the fields after `update_settings` are the merge of the old ones with the report |
| Decoder.CategoryName | fa5usbdata.py:79-82 | the names of the categories, `power`, `frequency` and `unknown` |
| Decoder.ChannelToText | fa5usbdata.py:139-145 | a channel name exists exactly for the letters `A`, `B` and `T` |
| Decoder.DecodeStripped | fa5usbdata.py:148-198 | a line yields at most two measurements, never of the unknown category, and never both measurements and settings; only an `AOK`/`GOK` reply can fail |
| Decoder.DecodeAck | fa5usbdata.py:160-185 | a command reply yields at most one measurement, a power one, and fails only as a gate-time reply |
| Decoder.GateTimeReply | fa5usbdata.py:165-166 | a gate-time reply succeeds exactly when `s[-14:-7]` is an integer, and then reports that gate time and nothing else |
| Decoder.LpfReport | fa5usbdata.py:178-183 | only the filter is reported; it is reported exactly when `LPF` is at the offset, and reported on exactly for the one "on" line |
| Decoder.DeviceSettings | fa5usbdata.py:167-177 | a `DOK` reply reports all four flags and no gate time |
| Decoder.StreamMeasurements | fa5usbdata.py:187-195 | a stream line yields a frequency, and also a power exactly when it has three comma fields |
| Decoder.PreprocessSurrounding | fa5usbdata.py:148-152 | surrounding whitespace does not change what a line decodes to |
| Decoder.ReplyKindOf | fa5usbdata.py:160-185 | a reply is classified by `POK` anywhere first, then by its last three characters, in the order of the code |
| Decoder.DecodePowerReply | fa5usbdata.py:161-164 | a `POK` reply yields one power measurement `s[2:-4]` and no settings |
| Decoder.DecodeGateTimeReply | fa5usbdata.py:165-166 | an `AOK`/`GOK` reply decodes as a gate-time reply |
| Decoder.DecodeDeviceReply | fa5usbdata.py:167-177 | a `DOK` reply yields no measurement and the device settings |
| Decoder.DeviceSettingsChars | fa5usbdata.py:167-177 | the `DOK` settings are read from characters 1 to 5: channel, precision `P`, external reference `E`, 50 ohm `R`, filter `L` |
| Decoder.DecodeEepromReply | fa5usbdata.py:178-180 | an `EOK` reply yields no measurement and at most the filter, on exactly for `LPF ON EOK` |
| Decoder.DecodeCommandReply | fa5usbdata.py:181-183 | a `COK` reply yields no measurement and at most the filter, on exactly for `CH1 LPF ON COK` |
| Decoder.DecodeOtherReply | fa5usbdata.py:184-185 | any other reply yields nothing |
| Decoder.DecodeStreamLine | fa5usbdata.py:186-195 | a stream line yields the frequency `field0[2:-3]`, and the power `field1` when there are three fields |
| Decoder.StreamFrequencyRoundTrip | fa5usbdata.py:187-191 | a received stream line `$c<str(d)>qqq,...`, with any whitespace around it, is decoded with `str(d)` as its first measurement, a frequency, and `Decimal()` of that text is `d` again |
| Decoder.StreamPowerRoundTrip | fa5usbdata.py:187-195 | a three-field stream line `$c<str(d)>qqq,<str(e)>,...` is decoded into exactly the frequency `str(d)` and the power `str(e)`, and both texts parse back to `d` and `e` |
| Decoder.StreamFrequencyField | fa5usbdata.py:187-191 | for any comma-free frequency text `p`, the line `$cpqqq,...` decodes with the frequency `p` as its first measurement |
| Decoder.StreamPowerField | fa5usbdata.py:187-195 | for comma-free texts `p` and `pw`, the line `$cpqqq,pw,...` decodes into exactly the measurements frequency `p` and power `pw` |
| Decoder.StreamLineDecodes | fa5usbdata.py:186-195 | a `$` line with whitespace around it, no `OK` and first field `$c p qqq`, decodes to the frequency `p` and, with three fields, the power in the second field, and changes no setting |
| Decoder.ParsedHasNoComma | fa5usbdata.py:230 | no string that `Decimal()` accepts holds a `,` |
| Decoder.NoCommaInDecimal | fa5usbdata.py:188 | `str(Decimal)` never contains the `,` that separates stream fields |
| Decoder.DecodeUnknownLine | fa5usbdata.py:196-197 | a line with neither `OK` nor `$` yields nothing |
| Grouping.Reverse | fa5usbdata.py:127 | `s[::-1]` has the characters of `s` in reverse order |
| Grouping.ReverseReverse | fa5usbdata.py:127 | reversing twice gives back the string |
| Grouping.Chunks | fa5usbdata.py:123-124 | the chunks are 1 to 3 characters long, all of them 3 except the last, and there are none only for the empty string |
| Grouping.ChunksConcat | fa5usbdata.py:123-124 | the chunks put together give back the string |
| Grouping.RightChunks | fa5usbdata.py:127 | the chunks taken from the right are 1 to 3 characters long, all of them 3 except the first, and there are none only for the empty string |
| Grouping.GroupFromRightSpec | fa5usbdata.py:127 | the integer grouping is the right-to-left chunks joined by spaces |
| Grouping.RemoveSpacesJoin | fa5usbdata.py:127-130 | removing the spaces of chunks joined by spaces gives back the chunks put together |
| Grouping.GroupSpaces | fa5usbdata.py:113-136 | zero becomes `0.0`; a nonzero value groups only when its string has a point (Python raises otherwise) |
| Grouping.SplitCount | fa5usbdata.py:120 | `split` yields one more field than there are separators |
| Grouping.SplitAtPoint | fa5usbdata.py:117-120 | `str(d)` splits into exactly two parts at the point exactly when `d` has places |
| Grouping.GroupSpacesRemoveSpaces | fa5usbdata.py:113-136 | removing the spaces from the grouped number gives back `str(d)` |
| Grouping.GroupSpacesShape | fa5usbdata.py:120-136 | integer digits are in threes from the point leftwards, fraction digits in threes from the point rightwards |
| Statistics.MinOf | fa5usbdata.py:290 | the minimum is at most every value and is one of them |
| Statistics.MaxOf | fa5usbdata.py:296 | the maximum is at least every value and is one of them |
| Statistics.MinValue | fa5usbdata.py:287-291 | 0.0 on no data, the minimum otherwise |
| Statistics.MaxValue | fa5usbdata.py:293-297 | 0.0 on no data, the maximum otherwise |
| Statistics.Average | fa5usbdata.py:299-304 | 0.0 on no data |
| Statistics.AverageBetween | fa5usbdata.py:299-304 | the average lies between the minimum and the maximum |
| Statistics.SumBounds | fa5usbdata.py:303 | the sum of `n` values within bounds is within `n` times those bounds |
| Statistics.Variance | fa5usbdata.py:306-311 | the sample variance is never negative and is 0.0 with fewer than two samples |
| Statistics.ConstantVariance | fa5usbdata.py:306-311 | samples that are all equal have variance 0 |
| Statistics.PeakToPeak | fa5usbdata.py:313-318 | max minus min is never negative, 0.0 on no data, and bounds the difference of any two values |
| Statistics.LatestValue | fa5usbdata.py:320-324 | `(0.0, 0.0)` on no data |
| Statistics.LatestAfterAppend | fa5usbdata.py:320-324 | the latest value is the sample appended last |
| Statistics.Count | fa5usbdata.py:340-344 | the count is 0 exactly when there are no samples |
| Statistics.Truncate | fa5usbdata.py:338 | `int()` of a real rounds toward zero: for `x >= 0` the result `n` is the natural with `n <= x < n + 1`, for `x < 0` it is the non-positive integer with `n - 1 < x <= n` |
| Statistics.TimeInterval | fa5usbdata.py:333-338 | 0 ms with fewer than two samples |
| Statistics.TimeIntervalNearest | fa5usbdata.py:333-338 | the interval is the last gap in ms rounded half to even, so within half a ms of it |
| Statistics.MeasuredFrequency | fa5usbdata.py:243-249 | with `freq` 0 and samples present, the average frequency; otherwise `freq` |
| Statistics.AutoTarget | fa5usbdata.py:251-253 | the derived target exists except where `log10(0)` would raise |
| Statistics.FreqDifference | fa5usbdata.py:242-262 | a nonzero target is used as given; with none, the target is the one derived from the measured frequency, and the only failure is the `log10(0)` error; the result is the offset of the measured frequency from that target |
| Statistics.FreqDifferenceMeaning | fa5usbdata.py:256-262 | the difference returned is the measured frequency minus the target; the ppm times a positive target is a million times the difference, and the ppm is 0 for any other target |
| Statistics.OffsetMeaning | fa5usbdata.py:256-260 | target plus difference is the frequency; ppm times a positive target is a million times the difference; ppm is 0 otherwise |
| Statistics.TenMegahertzExample | fa5usbdata.py:242-262 | one 10 MHz sample and no target give the target 10 MHz and a zero offset |
| MeasureLogs.Categories | fa5usbdata.py:225-226 | one category per measurement, in order |
| MeasureLogs.Parsed | fa5usbdata.py:230 | one parse result per measurement |
| MeasureLogs.ParsedAt | fa5usbdata.py:230 | the `i`-th parse result is `Decimal()` of the `i`-th payload |
| MeasureLogs.Reading | fa5usbdata.py:229-240 | a measurement adds at most one sample, and adds one exactly when its payload parses and its category is known |
| MeasureLogs.ReadingValue | fa5usbdata.py:234-237 | a frequency is stored as read, a power as a tenth of what was read |
| MeasureLogs.NewSamplesStamped | fa5usbdata.py:235-237 | every sample a line adds carries the line's timestamp |
| MeasureLogs.NewSamplesAppend | fa5usbdata.py:225 | the samples of two runs of measurements are those of each, in order |
| MeasureLogs.LineSamplesAppend | fa5usbdata.py:225-240 | the samples of a line are those of its first measurements followed by those of the rest |
| MeasureLogs.SkipsUnparseable | fa5usbdata.py:229-240 | a payload that does not parse adds nothing, and the measurements after it still add theirs |
| MeasureLogs.NewSamplesOtherCategory | fa5usbdata.py:234-237 | measurements of other categories add nothing to a list |
| MeasureLogs.MeasureLog.constructor | fa5usbdata.py:202-208 | a new log is empty, starts now, is reset on its first line and knows no settings |
| MeasureLogs.MeasureLog.Reset | fa5usbdata.py:276-282 | the lists are emptied, the clock restarts when asked, the pending reset is cleared, the settings are untouched |
| MeasureLogs.MeasureLog.ResetOnNextRead | fa5usbdata.py:284-285 | only the pending-reset flag changes |
| MeasureLogs.MeasureLog.GetData | fa5usbdata.py:346-351 | `frequency` and `power` name their lists; any other name reads as empty |
| MeasureLogs.MeasureLog.AddString | fa5usbdata.py:210-240 | a pending reset happens first; the line is logged with its time; settings are merged; each parsed payload is appended to its list, a power divided by 10 |
| MeasureLogs.MeasureLog.Apply | fa5usbdata.py:210-240 | `add_string` given its decode result: a decode error leaves the log reset but otherwise unchanged, a decoded line is logged and its settings and samples recorded |
| MeasureLogs.MeasureLog.Record | fa5usbdata.py:220-240 | after a decode, the line, the settings and the samples of its measurements are recorded |
| MeasureLogs.MeasureLog.AppendSamples | fa5usbdata.py:225-240 | the loop appends exactly the samples of the line's measurements, in order |
| MeasureLogs.MeasureLog.AddMeasurement | fa5usbdata.py:226-240 | one pass appends the parsed value to the list its category names, or nothing when the payload does not parse |
| Scheduler.ReleasedIff | ui_main.py:469 | the next command is released exactly on a line starting with `$` or with `OK` just before its last two characters |
| Scheduler.ReplyReleases | ui_main.py:469-470 | every reply ending in `OK` and CR LF releases the next command |
| Scheduler.OtherLinesHold | ui_main.py:469-470 | other lines do not release it |
| Scheduler.Toggle | ui_main.py:306-325 | a toggle sends "off" exactly when the setting is known to be on; an unknown setting counts as off |
| Scheduler.CommandScheduler.constructor | ui_main.py:77-181 | nothing queued, waiting, not connected (the module globals), and the device settings to be requested on the first reply (`__init__`) |
| Scheduler.CommandScheduler.SendToCommandBuffer | ui_main.py:524-528 | the command joins the tail of the queue and nothing is written |
| Scheduler.CommandScheduler.SendCommand | ui_main.py:530-556 | an explicit string is sent as it is; otherwise the head is taken (FIFO), or with an empty queue the scheduler waits; the text is written only while the port is established |
| Scheduler.CommandScheduler.ReadDataFromThread | ui_main.py:448-470 | error lines and lines while not connected change nothing; the first line after a start queues the two settings requests once; a releasing line sends the next command |
| Scheduler.CommandScheduler.StartLoop | ui_main.py:358-380 | a successful start establishes the port and asks for the settings again |
| Scheduler.CommandScheduler.OnEndButtonClicked | ui_main.py:565-568 | the port is no longer established and the queue is kept |
| Scheduler.CommandScheduler.SendWithRefresh | ui_main.py:288-325 | a command followed by the settings request is queued |
| Scheduler.CommandScheduler.ChannelChangeCh1 | ui_main.py:288-291 | queues `SET_CH1_FREQ_AND_POWER` then `GET_FREQ_POWER_SETTINGS` |
| Scheduler.CommandScheduler.ChannelChangeCh2 | ui_main.py:293-296 | queues `SET_CH2_FREQ_AND_POWER` then `GET_FREQ_POWER_SETTINGS` |
| Scheduler.CommandScheduler.ChannelChangeIntOsc | ui_main.py:298-301 | queues `SET_INTERNAL_10M_REF` then `GET_FREQ_POWER_SETTINGS` |
| Scheduler.CommandScheduler.GetSettingsFromDevice | ui_main.py:303-304 | queues `GET_FREQ_POWER_SETTINGS` |
| Scheduler.CommandScheduler.TogglePrecisionMode | ui_main.py:306-311 | queues the opposite precision command, then the settings request |
| Scheduler.CommandScheduler.ToggleLpf | ui_main.py:313-318 | queues the opposite filter command, then the settings request |
| Scheduler.CommandScheduler.ToggleImp50 | ui_main.py:320-325 | queues the opposite impedance command, then the settings request |
| Scheduler.CommandScheduler.GetProdVersionInfo | ui_main.py:327-329 | queues `GET_PROD_VERSION` |
| Scheduler.CommandScheduler.SetGateTime | ui_main.py:331-334 | queues the gate-time command built for the chosen milliseconds |
| Scheduler.CommandScheduler.WriteDataButton | ui_main.py:577-585 | queues the typed text only while the port is established |

## Left out

- The Qt GUI is not modelled: widgets, labels, styling, message boxes and
  `update_gui_settings`. It is presentation only. The display code in
  `read_data_from_thread` after the release test is left out for the
  same reason.
- Serial port discovery and opening, and the `Worker` thread with its
  polling loop, signals and `time.sleep`, are I/O and concurrency.
  `StartLoop` takes the outcome of opening the port as a parameter.
- The `time.sleep(0.2)` pause in `send_command` has no effect on the
  state and is not modelled.
- Clipboard and CSV export (`copy_stats_to_clipboard`, `save_to_csv`)
  are file and clipboard I/O.
- `__str__`, `__repr__`, `get_freq_list` and the plain getters are
  debugging and tuple plumbing.
- The pip auto-install, the logging setup and `FA5-Counter.py` are not
  part of this model.
- Statistics.Variance: `stdev` is modelled as the sample variance. On
  the logged `Decimal` values `statistics.stdev` takes a `Decimal` square
  root, which is inexact and rounded to the 28-digit context; that root
  is left out. Only the variance's sign and its "fewer than two samples"
  rule are stated.
- Numbers.ParseDecimal: only positional notation is accepted (optional
  sign, ASCII digits, at most one point, at least one digit). Python's
  exponents, `NaN`, `Infinity`, underscores and non-ASCII Unicode digits
  are not. The 28-digit precision of the decimal context is not
  modelled. The power's division by 10 (fa5usbdata.py:237) is exact in
  Python too. The divisions that do round in Python are the average
  `sum(values) / len(values)` (fa5usbdata.py:303) and the ppm
  `1000000 * difference / target_frequency` (fa5usbdata.py:258); the
  model computes both as exact rationals.
- Numbers.DecimalToString: `str(Decimal)` is modelled in positional
  notation only. Python switches to scientific notation when the
  exponent is positive, or when the adjusted exponent (exponent plus
  number of coefficient digits minus one) is below -6. The model's
  `places: nat` is the negated exponent, so it cannot hold a positive
  exponent at all, and the small-value case is not modelled.
- Numbers.ParseInt: `int()` accepts surrounding whitespace, a sign and
  ASCII digits. Underscores and non-ASCII digits are not modelled.
- Statistics.AutoTarget: `math.log10` converts its argument to a binary
  float. The model computes `floor(log10)` exactly, which can differ
  right next to a power of ten. The `round(frequency, decimals)` that
  follows is a `Decimal` quantize with half-even rounding, which
  `Numbers.RoundTo` reproduces. Only the domain error and the closeness
  of `round` (`Numbers.RoundToNear`) are stated.
- Statistics.TimeInterval: the timestamps are floats in Python. The model
  rounds the exact difference.
- Commands.MakeGateTimeCommand takes whole milliseconds. The
  `float(gatetime) * 1000` conversion from the combo-box text is left
  out.
- MeasureLogs.MeasureLog.AddString reads the clock once (`now`). Python
  reads it again for the timestamp after a reset, which can differ by
  the time the reset takes.
- Scheduler.Wire: the command table is not shown to be injective, so the
  written log records texts and not command members.
- Decoder.Preprocess states nothing itself. Its properties are stated on
  `Decoder.DecodeStripped` together with `Decoder.PreprocessSurrounding`.
