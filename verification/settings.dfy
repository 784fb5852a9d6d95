/** The settings the application believes the counter has (`FASettings`),
    and how a partial update reported by the counter is folded into them. */
module Settings {
  import opened Wrappers

  /** A snapshot of `FASettings`: `None` is Python's `None` (not known, or
      not reported by a line), and a gate time of 0 means not reported. */
  datatype Settings = Settings(
    channel: Option<string>,
    imp50: Option<bool>,
    precision: Option<bool>,
    extReferenceOsc: Option<bool>,
    lpf: Option<bool>,
    gateTime: int)

  /** `FASettings()` with its default arguments: nothing known. */
  const NoChange := Settings(None, None, None, None, None, 0)

  /** One optional field of `update_settings`: a reported value replaces the old one. */
  function Pick<T>(previous: Option<T>, reported: Option<T>): Option<T> {
    if reported.Some? then reported else previous
  }

  /** The settings after `update_settings(delta)`: each optional field is
      replaced only when `delta` reports it, the gate time only when
      `delta`'s is positive. */
  function Merge(cur: Settings, delta: Settings): (r: Settings)
    ensures delta.gateTime > 0 ==> r.gateTime == delta.gateTime
    ensures delta.gateTime <= 0 ==> r.gateTime == cur.gateTime
  {
    Settings(
      Pick(cur.channel, delta.channel),
      Pick(cur.imp50, delta.imp50),
      Pick(cur.precision, delta.precision),
      Pick(cur.extReferenceOsc, delta.extReferenceOsc),
      Pick(cur.lpf, delta.lpf),
      if delta.gateTime > 0 then delta.gateTime else cur.gateTime)
  }

  /** A field the delta leaves at `None` keeps its old value; a reported one
      takes the reported value whatever the old one was. */
  lemma MergeFields(cur: Settings, delta: Settings)
    ensures var r := Merge(cur, delta);
      && (r.channel == if delta.channel == None then cur.channel else delta.channel)
      && (r.imp50 == if delta.imp50 == None then cur.imp50 else delta.imp50)
      && (r.precision == if delta.precision == None then cur.precision else delta.precision)
      && (r.extReferenceOsc == if delta.extReferenceOsc == None then cur.extReferenceOsc else delta.extReferenceOsc)
      && (r.lpf == if delta.lpf == None then cur.lpf else delta.lpf)
  {
  }

  /** An empty delta changes nothing. */
  lemma MergeNoChange(cur: Settings)
    ensures Merge(cur, NoChange) == cur
  {
  }

  /** Folding the same delta in twice is the same as folding it in once. */
  lemma MergeIdempotent(cur: Settings, delta: Settings)
    ensures Merge(Merge(cur, delta), delta) == Merge(cur, delta)
  {
  }

  /** Two deltas folded in one after the other equal their own merge folded
      in at once: the order in which lines arrive is all that matters. */
  lemma MergeAssociative(cur: Settings, d1: Settings, d2: Settings)
    ensures Merge(Merge(cur, d1), d2) == Merge(cur, Merge(d1, d2))
  {
  }

  /** A field once known stays known: no update turns a value back into `None`. */
  lemma MergeKeepsKnown(cur: Settings, delta: Settings)
    ensures var r := Merge(cur, delta);
      && (cur.channel.Some? ==> r.channel.Some?)
      && (cur.imp50.Some? ==> r.imp50.Some?)
      && (cur.precision.Some? ==> r.precision.Some?)
      && (cur.extReferenceOsc.Some? ==> r.extReferenceOsc.Some?)
      && (cur.lpf.Some? ==> r.lpf.Some?)
      && (cur.gateTime > 0 ==> r.gateTime > 0)
  {
  }

  /** `FASettings`: the object whose fields `update_settings` overwrites. */
  class FASettings {
    var channel: Option<string>
    var imp50: Option<bool>
    var precision: Option<bool>
    var extReferenceOsc: Option<bool>
    var lpf: Option<bool>
    var gateTime: int

    function Value(): Settings
      reads this
    {
      Settings(channel, imp50, precision, extReferenceOsc, lpf, gateTime)
    }

    constructor()
      ensures Value() == NoChange
    {
      channel, imp50, precision, extReferenceOsc, lpf := None, None, None, None, None;
      gateTime := 0;
    }

    /** `update_settings(settings)`: copy every reported field of `delta`. */
    method UpdateSettings(delta: Settings)
      modifies this
      ensures Value() == Merge(old(Value()), delta)
    {
      if delta.channel.Some? {
        channel := delta.channel;
      }
      if delta.imp50.Some? {
        imp50 := delta.imp50;
      }
      if delta.precision.Some? {
        precision := delta.precision;
      }
      if delta.extReferenceOsc.Some? {
        extReferenceOsc := delta.extReferenceOsc;
      }
      if delta.lpf.Some? {
        lpf := delta.lpf;
      }
      if delta.gateTime > 0 {
        gateTime := delta.gateTime;
      }
    }
  }
}
