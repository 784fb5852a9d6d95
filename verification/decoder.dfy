/** `preprocess_string`: one line received from the counter, classified into
    measurements (a category and the text of a number) and the settings the
    line reports, found at fixed offsets. */
module Decoder {
  import opened Wrappers
  import opened PyStr
  import opened Numbers
  import opened Settings

  /** The `Category` enumeration. */
  datatype Category = Power | Frequency | Unknown

  /** A category's `.value`, the name `MeasureLog` queries use. */
  function CategoryName(c: Category): (name: string)
    ensures |name| >= 5
  {
    match c
    case Power => "power"
    case Frequency => "frequency"
    case Unknown => "unknown"
  }

  /** One `(category, numeric-string)` pair of the result. */
  datatype Measurement = Measurement(category: Category, payload: string)

  /** The pair `preprocess_string` returns: the measurements and a partial
      `FASettings` holding only what the line reports. */
  datatype Decoded = Decoded(measurements: seq<Measurement>, delta: Settings)

  /** The `ValueError` that `int()` raises on a gate-time acknowledgement
      whose gate-time field is not an integer; nothing catches it. */
  datatype DecodeError = GateTimeNotInteger(field: string)

  /** `channel_to_text`: the input-channel letter of a `DOK` line. */
  function ChannelToText(code: string): (r: Option<string>)
    ensures r.Some? <==> code == "A" || code == "B" || code == "T"
  {
    if code == "A" then Some("Channel: 1")
    else if code == "B" then Some("Channel: 2")
    else if code == "T" then Some("Channel: Internal Clock")
    else None
  }

  /** `preprocess_string(line)`: the line is stripped and then classified (see `DecodeStripped`). */
  function Preprocess(line: string): Result<Decoded, DecodeError>
  {
    DecodeStripped(Strip(line))
  }

  /** The classification of a line with its surrounding whitespace removed. */
  function DecodeStripped(s: string): (r: Result<Decoded, DecodeError>)
    ensures r.Ok? ==> |r.value.measurements| <= 2
    ensures r.Ok? ==> forall m :: m in r.value.measurements ==> m.category != Unknown
    ensures r.Ok? ==> r.value.measurements == [] || r.value.delta == NoChange
    ensures r.Err? ==> Slice(s, -3, |s|) in {"AOK", "GOK"}
  {
    if Contains(s, "OK") then DecodeAck(s)
    else if Contains(s, "$") then Ok(Decoded(StreamMeasurements(s), NoChange))
    else Ok(Decoded([], NoChange))
  }

  /** A line containing `OK`: the reply to a command. */
  function DecodeAck(s: string): (r: Result<Decoded, DecodeError>)
    ensures r.Ok? ==> |r.value.measurements| <= 1
    ensures r.Ok? ==> forall m :: m in r.value.measurements ==> m.category == Power
    ensures r.Ok? ==> r.value.measurements == [] || r.value.delta == NoChange
    ensures r.Err? ==> Slice(s, -3, |s|) in {"AOK", "GOK"}
  {
    match ReplyKind(s)
    case PowerReply => Ok(Decoded([Measurement(Power, Slice(s, 2, -4))], NoChange))
    case GateTimeReplyKind => GateTimeReply(s)
    case DeviceReply => Ok(Decoded([], DeviceSettings(s)))
    case EepromReply => Ok(Decoded([], LpfReport(s, 0, "LPF ON EOK")))
    case CommandReply => Ok(Decoded([], LpfReport(s, 4, "CH1 LPF ON COK")))
    case OtherReply => Ok(Decoded([], NoChange))
  }

  /** Which branch of the reply test a line containing `OK` takes: `POK`
      anywhere first, then the last three characters. */
  datatype Reply = PowerReply | GateTimeReplyKind | DeviceReply | EepromReply | CommandReply | OtherReply

  function ReplyKind(s: string): (k: Reply)
    ensures k == GateTimeReplyKind ==> Slice(s, -3, |s|) in {"AOK", "GOK"}
  {
    var tail := Slice(s, -3, |s|);
    if Contains(s, "POK") then PowerReply
    else if tail == "AOK" || tail == "GOK" then GateTimeReplyKind
    else if tail == "DOK" then DeviceReply
    else if tail == "EOK" then EepromReply
    else if tail == "COK" then CommandReply
    else OtherReply
  }

  /** A gate-time reply: the gate time is `int(s[-14:-7])`, and the
      `ValueError` of a field that is not an integer is passed on. */
  function GateTimeReply(s: string): (r: Result<Decoded, DecodeError>)
    ensures r.Ok? <==> ParseInt(Slice(s, -14, -7)).Some?
    ensures r.Ok? ==> r.value == Decoded([], NoChange.(gateTime := ParseInt(Slice(s, -14, -7)).value))
  {
    var field := Slice(s, -14, -7);
    match ParseInt(field)
    case Some(g) => Ok(Decoded([], NoChange.(gateTime := g)))
    case None => Err(GateTimeNotInteger(field))
  }

  /** A low-pass-filter reply: when the three characters at `at` are `LPF`
      it reports the filter, on exactly when the line is `onLine`;
      otherwise it reports nothing. */
  function LpfReport(s: string, at: int, onLine: string): (d: Settings)
    ensures d == NoChange.(lpf := d.lpf)
    ensures d.lpf.Some? <==> Slice(s, at, at + 3) == "LPF"
    ensures d.lpf == Some(true) <==> Slice(s, at, at + 3) == "LPF" && s == onLine
  {
    if Slice(s, at, at + 3) == "LPF" then NoChange.(lpf := Some(s == onLine)) else NoChange
  }

  /** The settings a `DOK` line reports, one character each from position 1 to 5. */
  function DeviceSettings(s: string): (d: Settings)
    ensures d.imp50.Some? && d.precision.Some? && d.extReferenceOsc.Some? && d.lpf.Some?
    ensures d.gateTime == 0
  {
    Settings(
      ChannelToText(Slice(s, 1, 2)),
      Some(Slice(s, 4, 5) == "R"),
      Some(Slice(s, 2, 3) == "P"),
      Some(Slice(s, 3, 4) == "E"),
      Some(Slice(s, 5, 6) == "L"),
      0)
  }

  /** A continuous-stream line: the frequency from the first comma field,
      without its first two and last three characters, and the second field
      as the power when the line has exactly three fields. */
  function StreamMeasurements(s: string): (ms: seq<Measurement>)
    ensures 1 <= |ms| <= 2 && ms[0].category == Frequency
    ensures |ms| == 2 <==> |Split(s, ',')| == 3
    ensures |ms| == 2 ==> ms[1].category == Power
  {
    var fields := Split(s, ',');
    [Measurement(Frequency, Slice(fields[0], 2, -3))]
      + (if |fields| == 3 then [Measurement(Power, fields[1])] else [])
  }

  /** Only the stripped line matters: whitespace around it, such as the
      CR LF terminator, changes nothing. */
  lemma PreprocessSurrounding(pre: string, s: string, post: string)
    requires forall k :: 0 <= k < |pre| ==> IsSpace(pre[k])
    requires forall k :: 0 <= k < |post| ==> IsSpace(post[k])
    requires s == [] || (!IsSpace(s[0]) && !IsSpace(s[|s| - 1]))
    ensures Preprocess(pre + s + post) == DecodeStripped(s)
    ensures Preprocess(s) == DecodeStripped(s)
  {
    assert Strip(pre + s + post) == s by {
      StripSurrounding(pre, s, post);
    }
    assert Strip(s) == s by {
      StripUnchanged(s);
    }
  }

  /** A line whose last three characters are `c` followed by `OK` contains `OK`. */
  lemma AckSuffix(s: string, c: char)
    requires Slice(s, -3, |s|) == [c] + "OK"
    ensures Contains(s, "OK")
  {
    SuffixOfLine(s, [c] + "OK");
    EndsWithOk(s, c);
  }

  lemma SuffixOfLine(s: string, tail: string)
    requires |tail| == 3 && Slice(s, -3, |s|) == tail
    ensures |s| >= 3 && s[|s| - 3..] == tail
  {
    SliceTail(s, 3);
  }

  lemma EndsWithOk(s: string, c: char)
    requires |s| >= 3 && s[|s| - 3..] == [c] + "OK"
    ensures Contains(s, "OK")
  {
    assert s[|s| - 2..|s|] == "OK";
    ContainsAt(s, "OK", |s| - 2);
  }

  /** `POK` anywhere in a line means it contains `OK` too. */
  lemma PowerAckContainsOk(s: string)
    requires Contains(s, "POK")
    ensures Contains(s, "OK")
  {
    ContainsIffOccurs(s, "POK");
    var i :| OccursAt(s, "POK", i);
    assert s[i + 1..i + 3] == s[i..i + 3][1..];
    ContainsAt(s, "OK", i + 1);
  }

  /** The five reply suffixes the decoder tells apart are distinct. */
  lemma ReplyTailsDistinct()
    ensures "AOK" != "GOK" && "AOK" != "DOK" && "AOK" != "EOK" && "AOK" != "COK"
    ensures "GOK" != "DOK" && "GOK" != "EOK" && "GOK" != "COK"
    ensures "DOK" != "EOK" && "DOK" != "COK" && "EOK" != "COK"
  {
    assert "AOK"[0] == 'A' && "GOK"[0] == 'G' && "DOK"[0] == 'D' && "EOK"[0] == 'E' && "COK"[0] == 'C';
  }

  /** Which branch a reply takes: `POK` anywhere wins; otherwise the last
      three characters decide. Every reply but the unknown kind contains
      `OK` by its suffix alone. */
  lemma ReplyKindOf(s: string)
    ensures Contains(s, "POK") ==> ReplyKind(s) == PowerReply && Contains(s, "OK")
    ensures var tail := Slice(s, -3, |s|);
      !Contains(s, "POK") ==>
        && ((tail == "AOK" || tail == "GOK") ==> ReplyKind(s) == GateTimeReplyKind && Contains(s, "OK"))
        && (tail == "DOK" ==> ReplyKind(s) == DeviceReply && Contains(s, "OK"))
        && (tail == "EOK" ==> ReplyKind(s) == EepromReply && Contains(s, "OK"))
        && (tail == "COK" ==> ReplyKind(s) == CommandReply && Contains(s, "OK"))
        && (tail !in {"AOK", "GOK", "DOK", "EOK", "COK"} ==> ReplyKind(s) == OtherReply)
  {
    var tail := Slice(s, -3, |s|);
    ReplyTailsDistinct();
    if Contains(s, "POK") {
      PowerAckContainsOk(s);
    } else if tail == "AOK" {
      AckSuffix(s, 'A');
    } else if tail == "GOK" {
      AckSuffix(s, 'G');
    } else if tail == "DOK" {
      AckSuffix(s, 'D');
    } else if tail == "EOK" {
      AckSuffix(s, 'E');
    } else if tail == "COK" {
      AckSuffix(s, 'C');
    }
  }

  /** A power reply yields exactly one power measurement, the line without
      its first two and last four characters, and no settings. */
  lemma DecodePowerReply(s: string)
    requires Contains(s, "POK")
    ensures DecodeStripped(s) == Ok(Decoded([Measurement(Power, Slice(s, 2, -4))], NoChange))
  {
    PowerAckContainsOk(s);
  }

  /** A gate-time reply reports only the gate time, `int(s[-14:-7])`; when
      that is not an integer the decoder fails. */
  lemma DecodeGateTimeReply(s: string)
    requires Contains(s, "OK") && ReplyKind(s) == GateTimeReplyKind
    ensures DecodeStripped(s) == GateTimeReply(s)
  {
  }

  /** A settings report yields no measurement and the settings encoded in
      characters 1 to 5. */
  lemma DecodeDeviceReply(s: string)
    requires Contains(s, "OK") && ReplyKind(s) == DeviceReply
    ensures DecodeStripped(s) == Ok(Decoded([], DeviceSettings(s)))
  {
  }

  lemma SliceChar(s: string, i: nat)
    requires i < |s|
    ensures Slice(s, i, i + 1) == [s[i]]
  {
  }

  /** The settings of a report, character by character: the channel from
      character 1 (`A`, `B`, `T`, otherwise not reported), precision mode
      exactly when character 2 is `P`, the external reference when
      character 3 is `E`, 50 ohm input when character 4 is `R` and the
      low-pass filter when character 5 is `L`. */
  lemma DeviceSettingsChars(s: string)
    requires |s| >= 6
    ensures DeviceSettings(s) == Settings(ChannelToText([s[1]]), Some(s[4] == 'R'),
      Some(s[2] == 'P'), Some(s[3] == 'E'), Some(s[5] == 'L'), 0)
  {
    SliceChar(s, 1);
    SliceChar(s, 2);
    SliceChar(s, 3);
    SliceChar(s, 4);
    SliceChar(s, 5);
  }

  /** An `EOK` reply reports the low-pass filter when the line starts with
      `LPF`: on exactly for `LPF ON EOK`; otherwise it reports nothing. */
  lemma DecodeEepromReply(s: string)
    requires Contains(s, "OK") && ReplyKind(s) == EepromReply
    ensures DecodeStripped(s) == Ok(Decoded([], LpfReport(s, 0, "LPF ON EOK")))
  {
  }

  /** A `COK` reply reports the low-pass filter when characters 4 to 6 are
      `LPF`: on exactly for `CH1 LPF ON COK`; otherwise it reports nothing. */
  lemma DecodeCommandReply(s: string)
    requires Contains(s, "OK") && ReplyKind(s) == CommandReply
    ensures DecodeStripped(s) == Ok(Decoded([], LpfReport(s, 4, "CH1 LPF ON COK")))
  {
  }

  /** Any other reply yields nothing at all. */
  lemma DecodeOtherReply(s: string)
    requires Contains(s, "OK") && ReplyKind(s) == OtherReply
    ensures DecodeStripped(s) == Ok(Decoded([], NoChange))
  {
  }

  /** A stream line (`$`, no `OK`) yields its frequency field and, with
      exactly three comma fields, its power field, and no settings. */
  lemma DecodeStreamLine(s: string)
    requires !Contains(s, "OK") && Contains(s, "$")
    ensures var fields := Split(s, ',');
      DecodeStripped(s) == Ok(Decoded(
        [Measurement(Frequency, Slice(fields[0], 2, -3))]
          + (if |fields| == 3 then [Measurement(Power, fields[1])] else []),
        NoChange))
  {
  }

  /** A stream line carrying `str(d)` as its frequency, with any whitespace
      around it: the decoder cuts exactly that text out of the first comma
      field, and `Decimal()` of it is `d` again. */
  lemma StreamFrequencyRoundTrip(pre: string, post: string, c: char, d: Decimal, q: string, rest: string)
    requires forall k :: 0 <= k < |pre| ==> IsSpace(pre[k])
    requires forall k :: 0 <= k < |post| ==> IsSpace(post[k])
    requires c != ',' && |q| == 3 && ',' !in q
    requires var line := "$" + [c] + DecimalToString(d) + q + "," + rest;
             !Contains(line, "OK") && !IsSpace(line[|line| - 1])
    ensures var r := Preprocess(pre + ("$" + [c] + DecimalToString(d) + q + "," + rest) + post);
      && r.Ok? && |r.value.measurements| >= 1
      && r.value.measurements[0] == Measurement(Frequency, DecimalToString(d))
      && ParseDecimal(r.value.measurements[0].payload) == Some(d)
  {
    NoCommaInDecimal(d);
    StreamFrequencyField(pre, post, c, DecimalToString(d), q, rest);
    DecimalStringRoundTrip(d);
  }

  /** The same with a power field: `str(d)` as the frequency and `str(e)` as
      the power of a three-field stream line both come back unchanged. */
  lemma StreamPowerRoundTrip(pre: string, post: string, c: char, d: Decimal, q: string, e: Decimal, rest: string)
    requires forall k :: 0 <= k < |pre| ==> IsSpace(pre[k])
    requires forall k :: 0 <= k < |post| ==> IsSpace(post[k])
    requires c != ',' && |q| == 3 && ',' !in q && ',' !in rest
    requires var line := "$" + [c] + DecimalToString(d) + q + "," + DecimalToString(e) + "," + rest;
             !Contains(line, "OK") && !IsSpace(line[|line| - 1])
    ensures var r := Preprocess(pre + ("$" + [c] + DecimalToString(d) + q + "," + DecimalToString(e) + "," + rest) + post);
      && r.Ok?
      && r.value.measurements == [Measurement(Frequency, DecimalToString(d)), Measurement(Power, DecimalToString(e))]
      && ParseDecimal(r.value.measurements[0].payload) == Some(d)
      && ParseDecimal(r.value.measurements[1].payload) == Some(e)
  {
    NoCommaInDecimal(d);
    NoCommaInDecimal(e);
    StreamPowerField(pre, post, c, DecimalToString(d), q, DecimalToString(e), rest);
    DecimalStringRoundTrip(d);
    DecimalStringRoundTrip(e);
  }

  /** The frequency text `p` of a stream line is its first measurement. */
  lemma StreamFrequencyField(pre: string, post: string, c: char, p: string, q: string, rest: string)
    requires forall k :: 0 <= k < |pre| ==> IsSpace(pre[k])
    requires forall k :: 0 <= k < |post| ==> IsSpace(post[k])
    requires c != ',' && ',' !in p && |q| == 3 && ',' !in q
    requires var line := "$" + [c] + p + q + "," + rest;
             !Contains(line, "OK") && !IsSpace(line[|line| - 1])
    ensures var r := Preprocess(pre + ("$" + [c] + p + q + "," + rest) + post);
      r.Ok? && |r.value.measurements| >= 1 && r.value.measurements[0] == Measurement(Frequency, p)
  {
    var f0 := "$" + [c] + p + q;
    SplitFirst(f0, ',', rest);
    StreamLineDecodes(pre, f0 + "," + rest, post, f0, p, q);
  }

  /** The frequency text `p` and power text `pw` of a three-field stream line
      are its two measurements. */
  lemma StreamPowerField(pre: string, post: string, c: char, p: string, q: string, pw: string, rest: string)
    requires forall k :: 0 <= k < |pre| ==> IsSpace(pre[k])
    requires forall k :: 0 <= k < |post| ==> IsSpace(post[k])
    requires c != ',' && ',' !in p && |q| == 3 && ',' !in q && ',' !in pw && ',' !in rest
    requires var line := "$" + [c] + p + q + "," + pw + "," + rest;
             !Contains(line, "OK") && !IsSpace(line[|line| - 1])
    ensures Preprocess(pre + ("$" + [c] + p + q + "," + pw + "," + rest) + post)
            == Ok(Decoded([Measurement(Frequency, p), Measurement(Power, pw)], NoChange))
  {
    var f0 := "$" + [c] + p + q;
    var line := f0 + "," + pw + "," + rest;
    assert line == f0 + [','] + pw + [','] + rest;
    SplitThree(f0, pw, rest, ',');
    assert Split(line, ',') == [f0, pw, rest];
    StreamLineDecodes(pre, line, post, f0, p, q);
    assert [Measurement(Frequency, p)] + [Measurement(Power, pw)]
        == [Measurement(Frequency, p), Measurement(Power, pw)];
  }

  /** A stream line whose first comma field is `$`, one character, `p` and a
      three-character tail decodes, through any surrounding whitespace, to
      the frequency `p` first. */
  lemma StreamLineDecodes(pre: string, line: string, post: string, f0: string, p: string, q: string)
    requires forall k :: 0 <= k < |pre| ==> IsSpace(pre[k])
    requires forall k :: 0 <= k < |post| ==> IsSpace(post[k])
    requires |f0| >= 2 && f0 == f0[..2] + p + q && f0[0] == '$' && |q| == 3
    requires line != [] && line[0] == '$' && Split(line, ',')[0] == f0
    requires !Contains(line, "OK") && !IsSpace(line[|line| - 1])
    ensures var fields := Split(line, ',');
      Preprocess(pre + line + post) == Ok(Decoded(
        [Measurement(Frequency, p)] + (if |fields| == 3 then [Measurement(Power, fields[1])] else []),
        NoChange))
  {
    PreprocessSurrounding(pre, line, post);
    ContainsAt(line, "$", 0);
    DecodeStreamLine(line);
    assert Slice(f0, 2, -3) == p;
  }

  /** `str(d)` never holds the protocol's `,` separator. */
  lemma NoCommaInDecimal(d: Decimal)
    ensures ',' !in DecimalToString(d)
  {
    var s := DecimalToString(d);
    DecimalStringRoundTrip(d);
    ParsedHasNoComma(s);
  }

  /** A string `Decimal()` accepts holds no `,`. */
  lemma ParsedHasNoComma(s: string)
    requires ParseDecimal(s).Some?
    ensures ',' !in s
  {
    ParseDecimalCharset(s);
  }

  /** A line with neither `OK` nor `$` is unknown and yields nothing. */
  lemma DecodeUnknownLine(s: string)
    requires !Contains(s, "OK") && !Contains(s, "$")
    ensures DecodeStripped(s) == Ok(Decoded([], NoChange))
  {
  }
}
