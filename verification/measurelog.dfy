/** `MeasureLog`: the store of received lines and of the frequency and power
    samples taken from them, with a deferred reset and the latest settings. */
module MeasureLogs {
  import opened Wrappers
  import opened Numbers
  import opened Settings
  import opened Decoder
  import opened Statistics

  /** One entry of `strings`: a received line and its time since the start. */
  datatype LoggedLine = LoggedLine(line: string, timestamp: real)

  /** The categories of the measurements of one line, in order. */
  function Categories(ms: seq<Measurement>): (cs: seq<Category>)
    ensures |cs| == |ms| && forall i :: 0 <= i < |ms| ==> cs[i] == ms[i].category
  {
    seq(|ms|, i requires 0 <= i < |ms| => ms[i].category)
  }

  /** The payloads of the measurements of one line, each parsed as a decimal. */
  function Parsed(ms: seq<Measurement>): (ps: seq<Option<Decimal>>)
    ensures |ps| == |ms|
    decreases |ms|
  {
    if ms == [] then [] else Parsed(ms[..|ms| - 1]) + [ParseDecimal(ms[|ms| - 1].payload)]
  }

  lemma {:induction false} ParsedAt(ms: seq<Measurement>, i: nat)
    requires i < |ms|
    ensures Parsed(ms)[i] == ParseDecimal(ms[i].payload)
    decreases |ms|
  {
    if i < |ms| - 1 {
      ParsedAt(ms[..|ms| - 1], i);
    }
  }

  /** The samples one measurement of `category` adds, given its payload
      parsed as a decimal: none when it did not parse, its value for a
      frequency, a tenth of it for a power. */
  function Reading(category: Category, parsed: Option<Decimal>, t: real): (r: seq<Sample>)
    ensures |r| <= 1
    ensures r != [] <==> parsed.Some? && category != Unknown
  {
    match parsed
    case None => []
    case Some(d) =>
      match category
      case Frequency => [Sample(DecimalValue(d), t)]
      case Power => [Sample(DecimalValue(d) / 10.0, t)]
      case Unknown => []
  }

  /** A frequency is stored as read, a power as a tenth of what was read. */
  lemma ReadingValue(d: Decimal, t: real)
    ensures Reading(Frequency, Some(d), t)[0].value == DecimalValue(d)
    ensures Reading(Power, Some(d), t)[0].value * 10.0 == DecimalValue(d)
  {
  }

  /** The samples of `category` added by measurements of categories `cs`
      whose payloads parsed as `ps`, in order. */
  function NewSamples(cs: seq<Category>, ps: seq<Option<Decimal>>, category: Category, t: real): (r: seq<Sample>)
    requires |cs| == |ps|
    ensures |r| <= |ps|
    decreases |ps|
  {
    if ps == [] then []
    else
      var n := |ps| - 1;
      NewSamples(cs[..n], ps[..n], category, t) + (if cs[n] == category then Reading(cs[n], ps[n], t) else [])
  }

  /** The samples of `category` that the measurements `ms` of one line add. */
  function LineSamples(ms: seq<Measurement>, category: Category, t: real): seq<Sample> {
    NewSamples(Categories(ms), Parsed(ms), category, t)
  }

  lemma NewSamplesSnoc(cs: seq<Category>, ps: seq<Option<Decimal>>, i: nat, category: Category, t: real)
    requires |cs| == |ps| && i < |ps|
    ensures NewSamples(cs[..i + 1], ps[..i + 1], category, t)
            == NewSamples(cs[..i], ps[..i], category, t) + (if cs[i] == category then Reading(cs[i], ps[i], t) else [])
  {
    assert cs[..i + 1][..i] == cs[..i] && ps[..i + 1][..i] == ps[..i];
  }

  lemma AppendAssociative<T>(a: seq<T>, b: seq<T>, c: seq<T>)
    ensures (a + b) + c == a + (b + c)
  {
  }

  /** Every sample a line adds carries the line's timestamp. */
  lemma {:induction false} NewSamplesStamped(cs: seq<Category>, ps: seq<Option<Decimal>>, category: Category, t: real)
    requires |cs| == |ps|
    ensures forall i :: 0 <= i < |NewSamples(cs, ps, category, t)| ==> NewSamples(cs, ps, category, t)[i].timestamp == t
    decreases |ps|
  {
    if ps != [] {
      var n := |ps| - 1;
      NewSamplesStamped(cs[..n], ps[..n], category, t);
    }
  }

  lemma {:induction false} NewSamplesAppend(cs1: seq<Category>, ps1: seq<Option<Decimal>>,
                                            cs2: seq<Category>, ps2: seq<Option<Decimal>>, category: Category, t: real)
    requires |cs1| == |ps1| && |cs2| == |ps2|
    ensures NewSamples(cs1 + cs2, ps1 + ps2, category, t)
            == NewSamples(cs1, ps1, category, t) + NewSamples(cs2, ps2, category, t)
    decreases |ps2|
  {
    if ps2 == [] {
      assert cs1 + cs2 == cs1 && ps1 + ps2 == ps1;
    } else {
      var n := |ps2| - 1;
      assert (cs1 + cs2)[..|ps1| + n] == cs1 + cs2[..n];
      assert (ps1 + ps2)[..|ps1| + n] == ps1 + ps2[..n];
      assert (cs1 + cs2)[|ps1| + n] == cs2[n] && (ps1 + ps2)[|ps1| + n] == ps2[n];
      NewSamplesAppend(cs1, ps1, cs2[..n], ps2[..n], category, t);
      AppendAssociative(NewSamples(cs1, ps1, category, t), NewSamples(cs2[..n], ps2[..n], category, t),
                        if cs2[n] == category then Reading(cs2[n], ps2[n], t) else []);
    }
  }

  lemma {:induction false} ParsedAppend(a: seq<Measurement>, b: seq<Measurement>)
    ensures Parsed(a + b) == Parsed(a) + Parsed(b)
    decreases |b|
  {
    if b == [] {
      assert a + b == a;
    } else {
      var n := |b| - 1;
      assert (a + b)[..|a + b| - 1] == a + b[..n];
      ParsedAppend(a, b[..n]);
    }
  }

  /** The samples of two runs of measurements are those of each, in order. */
  lemma LineSamplesAppend(a: seq<Measurement>, b: seq<Measurement>, category: Category, t: real)
    ensures LineSamples(a + b, category, t) == LineSamples(a, category, t) + LineSamples(b, category, t)
  {
    ParsedAppend(a, b);
    CategoriesAppend(a, b);
    NewSamplesAppend(Categories(a), Parsed(a), Categories(b), Parsed(b), category, t);
  }

  lemma CategoriesAppend(a: seq<Measurement>, b: seq<Measurement>)
    ensures Categories(a + b) == Categories(a) + Categories(b)
  {
    var l, r := Categories(a + b), Categories(a) + Categories(b);
    forall i | 0 <= i < |l|
      ensures l[i] == r[i]
    {
      if i < |a| {
        assert (a + b)[i] == a[i];
      } else {
        assert (a + b)[i] == b[i - |a|];
      }
    }
  }

  /** A measurement whose payload does not parse is skipped, and the ones
      after it still count. */
  lemma SkipsUnparseable(ms: seq<Measurement>, i: nat, category: Category, t: real)
    requires i < |ms| && ParseDecimal(ms[i].payload).None?
    ensures LineSamples(ms, category, t) == LineSamples(ms[..i], category, t) + LineSamples(ms[i + 1..], category, t)
  {
    var cs, ps := Categories(ms), Parsed(ms);
    ParsedAt(ms, i);
    NewSamplesSkip(cs, ps, i, category, t);
    ParsedPrefix(ms, i);
    ParsedSuffix(ms, i + 1);
    CategoriesSlices(ms, i);
    CategoriesSlices(ms, i + 1);
  }

  lemma CategoriesSlices(ms: seq<Measurement>, i: nat)
    requires i <= |ms|
    ensures Categories(ms[..i]) == Categories(ms)[..i]
    ensures Categories(ms[i..]) == Categories(ms)[i..]
  {
  }

  /** `Parsed` of a prefix is the prefix of `Parsed`. */
  lemma {:induction false} ParsedPrefix(ms: seq<Measurement>, i: nat)
    requires i <= |ms|
    ensures Parsed(ms[..i]) == Parsed(ms)[..i]
    decreases |ms|
  {
    if i < |ms| {
      var n := |ms| - 1;
      assert ms[..n][..i] == ms[..i];
      ParsedPrefix(ms[..n], i);
      assert Parsed(ms)[..i] == Parsed(ms[..n])[..i];
    } else {
      assert ms[..i] == ms;
    }
  }

  /** `Parsed` of a suffix is the suffix of `Parsed`. */
  lemma ParsedSuffix(ms: seq<Measurement>, i: nat)
    requires i <= |ms|
    ensures Parsed(ms[i..]) == Parsed(ms)[i..]
  {
    assert ms == ms[..i] + ms[i..];
    ParsedAppend(ms[..i], ms[i..]);
  }

  /** A measurement whose payload did not parse contributes no sample. */
  lemma NewSamplesSkip(cs: seq<Category>, ps: seq<Option<Decimal>>, i: nat, category: Category, t: real)
    requires |cs| == |ps| && i < |ps| && ps[i].None?
    ensures NewSamples(cs, ps, category, t)
            == NewSamples(cs[..i], ps[..i], category, t) + NewSamples(cs[i + 1..], ps[i + 1..], category, t)
  {
    var c1, p1 := [cs[i]], [ps[i]];
    NewSamplesNone(cs[i], ps[i], category, t);
    var cr, pr := cs[i + 1..], ps[i + 1..];
    assert cs[i..] == c1 + cr && ps[i..] == p1 + pr;
    NewSamplesAppend(c1, p1, cr, pr, category, t);
    assert cs == cs[..i] + cs[i..] && ps == ps[..i] + ps[i..];
    NewSamplesAppend(cs[..i], ps[..i], cs[i..], ps[i..], category, t);
  }

  lemma NewSamplesNone(c: Category, p: Option<Decimal>, category: Category, t: real)
    requires p.None?
    ensures NewSamples([c], [p], category, t) == []
  {
    assert [c][..0] == [] && [p][..0] == [];
  }

  /** Measurements of the other categories add nothing. */
  lemma {:induction false} NewSamplesOtherCategory(cs: seq<Category>, ps: seq<Option<Decimal>>, category: Category, t: real)
    requires |cs| == |ps|
    requires forall i :: 0 <= i < |cs| ==> cs[i] != category
    ensures NewSamples(cs, ps, category, t) == []
    decreases |ps|
  {
    if ps != [] {
      NewSamplesOtherCategory(cs[..|ps| - 1], ps[..|ps| - 1], category, t);
    }
  }

  class MeasureLog {
    var strings: seq<LoggedLine>
    var frequencies: seq<Sample>
    var power: seq<Sample>
    var startTime: real
    var resetOnTheNextRead: bool
    const latestSettings: FASettings

    /** A new log is empty, starts at `now` and is reset on its first line. */
    constructor(now: real)
      ensures strings == [] && frequencies == [] && power == []
      ensures startTime == now && resetOnTheNextRead
      ensures fresh(latestSettings) && latestSettings.Value() == NoChange
    {
      strings, frequencies, power := [], [], [];
      startTime := now;
      resetOnTheNextRead := true;
      latestSettings := new FASettings();
    }

    /** `reset(reset_time)`: empties the three lists, restarts the clock at
        `now` when asked, clears the pending reset; the settings are kept. */
    method Reset(resetTime: bool, now: real)
      modifies this
      ensures strings == [] && frequencies == [] && power == []
      ensures startTime == (if resetTime then now else old(startTime))
      ensures !resetOnTheNextRead
      ensures latestSettings.Value() == old(latestSettings.Value())
    {
      strings, frequencies, power := [], [], [];
      if resetTime {
        startTime := now;
      }
      resetOnTheNextRead := false;
    }

    /** `reset_on_next_read`: schedules a reset for the next line and changes nothing else. */
    method ResetOnNextRead()
      modifies this
      ensures resetOnTheNextRead
      ensures strings == old(strings) && frequencies == old(frequencies) && power == old(power)
      ensures startTime == old(startTime)
    {
      resetOnTheNextRead := true;
    }

    /** `_get_data(category)`: the samples named by `category`, none for any other name. */
    function GetData(category: string): (data: seq<Sample>)
      reads this
      ensures category == CategoryName(Frequency) ==> data == frequencies
      ensures category == CategoryName(Power) ==> data == power
      ensures category != CategoryName(Frequency) && category != CategoryName(Power) ==> data == []
    {
      if category == "frequency" then frequencies
      else if category == "power" then power
      else []
    }

    /** `add_string(line)` at time `now`. A pending reset happens first. The
        line is logged with its time since the start, the settings it reports
        are merged into `latestSettings`, and each measurement whose payload
        parses adds one sample to its list. `ok` is false when the decoder
        fails; the reset has then happened and nothing else has changed. */
    method AddString(line: string, now: real) returns (ok: bool)
      modifies this, latestSettings
      ensures ok <==> Preprocess(line).Ok?
      ensures !resetOnTheNextRead
      ensures startTime == (if old(resetOnTheNextRead) then now else old(startTime))
      ensures !ok ==>
        && strings == (if old(resetOnTheNextRead) then [] else old(strings))
        && frequencies == (if old(resetOnTheNextRead) then [] else old(frequencies))
        && power == (if old(resetOnTheNextRead) then [] else old(power))
        && latestSettings.Value() == old(latestSettings.Value())
      ensures ok ==> var t := now - startTime;
        && strings == (if old(resetOnTheNextRead) then [] else old(strings)) + [LoggedLine(line, t)]
        && frequencies == (if old(resetOnTheNextRead) then [] else old(frequencies))
                          + LineSamples(Preprocess(line).value.measurements, Frequency, t)
        && power == (if old(resetOnTheNextRead) then [] else old(power))
                    + LineSamples(Preprocess(line).value.measurements, Power, t)
        && latestSettings.Value() == Merge(old(latestSettings.Value()), Preprocess(line).value.delta)
    {
      ok := Apply(line, Preprocess(line), now);
    }

    /** `add_string` once the line has been decoded to `decoded`. */
    method Apply(line: string, decoded: Result<Decoded, DecodeError>, now: real) returns (ok: bool)
      modifies this, latestSettings
      ensures ok <==> decoded.Ok?
      ensures !resetOnTheNextRead
      ensures startTime == (if old(resetOnTheNextRead) then now else old(startTime))
      ensures !ok ==>
        && strings == (if old(resetOnTheNextRead) then [] else old(strings))
        && frequencies == (if old(resetOnTheNextRead) then [] else old(frequencies))
        && power == (if old(resetOnTheNextRead) then [] else old(power))
        && latestSettings.Value() == old(latestSettings.Value())
      ensures ok ==> var t := now - startTime;
        && strings == (if old(resetOnTheNextRead) then [] else old(strings)) + [LoggedLine(line, t)]
        && frequencies == (if old(resetOnTheNextRead) then [] else old(frequencies))
                          + LineSamples(decoded.value.measurements, Frequency, t)
        && power == (if old(resetOnTheNextRead) then [] else old(power))
                    + LineSamples(decoded.value.measurements, Power, t)
        && latestSettings.Value() == Merge(old(latestSettings.Value()), decoded.value.delta)
    {
      if resetOnTheNextRead {
        Reset(true, now);
      }
      var t := now - startTime;
      if decoded.Err? {
        return false;
      }
      ok := true;
      Record(line, decoded.value, t);
    }

    /** The part of `add_string` after a successful decode: the line is
        logged at time `t`, the reported settings are merged and the
        measurements are appended to their lists. */
    method Record(line: string, decoded: Decoded, t: real)
      modifies this, latestSettings
      ensures strings == old(strings) + [LoggedLine(line, t)]
      ensures frequencies == old(frequencies) + LineSamples(decoded.measurements, Frequency, t)
      ensures power == old(power) + LineSamples(decoded.measurements, Power, t)
      ensures latestSettings.Value() == Merge(old(latestSettings.Value()), decoded.delta)
      ensures startTime == old(startTime) && resetOnTheNextRead == old(resetOnTheNextRead)
    {
      strings := strings + [LoggedLine(line, t)];
      latestSettings.UpdateSettings(decoded.delta);
      AppendSamples(decoded.measurements, t);
    }

    /** The loop of `add_string` over the measurements of one line. */
    method AppendSamples(ms: seq<Measurement>, t: real)
      modifies this
      ensures frequencies == old(frequencies) + LineSamples(ms, Frequency, t)
      ensures power == old(power) + LineSamples(ms, Power, t)
      ensures strings == old(strings) && startTime == old(startTime)
      ensures resetOnTheNextRead == old(resetOnTheNextRead)
    {
      ghost var cs, ps := Categories(ms), Parsed(ms);
      for i := 0 to |ms|
        invariant frequencies == old(frequencies) + NewSamples(cs[..i], ps[..i], Frequency, t)
        invariant power == old(power) + NewSamples(cs[..i], ps[..i], Power, t)
        invariant strings == old(strings) && startTime == old(startTime)
        invariant resetOnTheNextRead == old(resetOnTheNextRead)
      {
        NewSamplesSnoc(cs, ps, i, Frequency, t);
        NewSamplesSnoc(cs, ps, i, Power, t);
        ghost var f, p := frequencies, power;
        AddMeasurement(ms, i, t);
        AppendAssociative(old(frequencies), NewSamples(cs[..i], ps[..i], Frequency, t), frequencies[|f|..]);
        AppendAssociative(old(power), NewSamples(cs[..i], ps[..i], Power, t), power[|p|..]);
      }
      assert cs[..|ms|] == cs && ps[..|ms|] == ps;
    }

    /** One pass of that loop, for measurement `i`: its payload is parsed
        and, when it parses, appended to the list its category names, a
        frequency as read and a power divided by 10. */
    method AddMeasurement(ms: seq<Measurement>, i: nat, t: real)
      requires i < |ms|
      modifies this
      ensures var step := Reading(ms[i].category, Parsed(ms)[i], t);
        && frequencies == old(frequencies) + (if ms[i].category == Frequency then step else [])
        && power == old(power) + (if ms[i].category == Power then step else [])
      ensures strings == old(strings) && startTime == old(startTime)
      ensures resetOnTheNextRead == old(resetOnTheNextRead)
    {
      var m := ms[i];
      ParsedAt(ms, i);
      match ParseDecimal(m.payload) {
        case Some(d) =>
          if m.category == Frequency {
            frequencies := frequencies + [Sample(DecimalValue(d), t)];
          } else if m.category == Power {
            power := power + [Sample(DecimalValue(d) / 10.0, t)];
          }
        case None =>
      }
    }
  }
}
