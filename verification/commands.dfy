/** The FA-5 command set: one fixed payload per command, and the
    gate-time command built from a number of milliseconds. */
module Commands {
  import opened Wrappers
  import opened PyStr
  import opened Numbers

  /** The members of the `Commands` enumeration. */
  datatype Command =
    | GetGateTimeSetting | GetFreqPowerSettings | GetProdVersion | Reset
    | SetInternal10MRef | SetCh1FreqAndPower | SetCh2FreqAndPower
    | Ch1Impedance50 | Ch1Impedance1M | Ch1LpfOn | Ch1LpfOff
    | HighPrecisionOn | HighPrecisionOff | SendFreqAfterMeasure | SendFreqAndPower
    | UseDForFreqPower
    | SetBaudRate4800 | SetBaudRate9600 | SetBaudRate19200 | SetBaudRate38400
    | SetBaudRate57600 | SetBaudRate115200
    | SetGateTime100ms | SetGateTime1000ms | SetGateTime2000ms | SetGateTime20000ms
    | EeSelfTestOnPowerUp | EeCh1FreqOnPowerUp | EeCh2FreqOnPowerUp
    | EeCh1Ohms50SaveEeprom | EeCh1MOhms1SaveEeprom | EeBeepOnSaveEeprom | EeBeepOffSaveEeprom
    | EePrecisionModeOn | EePrecisionModeOff | EeTurnOnLpfSaveEeprom | EeTurnOffLpfSaveEeprom
    | EeCalibrateCh1Ohms50Dbm0 | EeCalibrateCh1Ohms50DbmMinus20 | EeCalibrateCh1Ohms50Dbm5
    | EeCalibrateCh2Dbm0 | EeCalibrateCh2DbmMinus20
    | EeSaveCh1NoiseFloor | EeSaveCh2NoiseFloor
    | EeAutoSendFreq | EeAutoSendFreqPower | EeQueryFreqPowerManually

  /** The enumeration member's `.value`: the text written to the counter. */
  function Payload(c: Command): (p: string)
    ensures |p| >= 3 && p[0] == '$' && p[|p| - 1] == '*'
  {
    match c
    case GetGateTimeSetting => "$G*"
    case GetFreqPowerSettings => "$D*"
    case GetProdVersion => "$V*"
    case Reset => "$R*"
    case SetInternal10MRef => "$C0000*"
    case SetCh1FreqAndPower => "$C0101*"
    case SetCh2FreqAndPower => "$C0202*"
    case Ch1Impedance50 => "$C0303*"
    case Ch1Impedance1M => "$C0404*"
    case Ch1LpfOn => "$C0505*"
    case Ch1LpfOff => "$C0606*"
    case HighPrecisionOn => "$C0707*"
    case HighPrecisionOff => "$C0808*"
    case SendFreqAfterMeasure => "$C0909*"
    case SendFreqAndPower => "$C1010*"
    case UseDForFreqPower => "$C1111*"
    case SetBaudRate4800 => "$C2020*"
    case SetBaudRate9600 => "$C2121*"
    case SetBaudRate19200 => "$C2222*"
    case SetBaudRate38400 => "$C2323*"
    case SetBaudRate57600 => "$C2424*"
    case SetBaudRate115200 => "$C2525*"
    case SetGateTime100ms => "$A00100*"
    case SetGateTime1000ms => "$A01000*"
    case SetGateTime2000ms => "$A02000*"
    case SetGateTime20000ms => "$A20000*"
    case EeSelfTestOnPowerUp => "$E2020*"
    case EeCh1FreqOnPowerUp => "$E2121*"
    case EeCh2FreqOnPowerUp => "$E2222*"
    case EeCh1Ohms50SaveEeprom => "$E3030*"
    case EeCh1MOhms1SaveEeprom => "$E3131*"
    case EeBeepOnSaveEeprom => "$E3232*"
    case EeBeepOffSaveEeprom => "$E3333*"
    case EePrecisionModeOn => "$E3434*"
    case EePrecisionModeOff => "$E3535*"
    case EeTurnOnLpfSaveEeprom => "$E3636*"
    case EeTurnOffLpfSaveEeprom => "$E3737*"
    case EeCalibrateCh1Ohms50Dbm0 => "$E4040*"
    case EeCalibrateCh1Ohms50DbmMinus20 => "$E4141*"
    case EeCalibrateCh1Ohms50Dbm5 => "$E4242*"
    case EeCalibrateCh2Dbm0 => "$E4343*"
    case EeCalibrateCh2DbmMinus20 => "$E4444*"
    case EeSaveCh1NoiseFloor => "$E4545*"
    case EeSaveCh2NoiseFloor => "$E4646*"
    case EeAutoSendFreq => "$E6060*"
    case EeAutoSendFreqPower => "$E6161*"
    case EeQueryFreqPowerManually => "$E6262*"
  }

  /** `make_gate_time_command` for a gate time given in whole milliseconds:
      `"$A"`, the milliseconds zero-padded to five characters, and `"*"`. */
  function MakeGateTimeCommand(ms: int): (cmd: string)
    ensures |cmd| >= 8 && cmd[..2] == "$A" && cmd[|cmd| - 1] == '*'
    ensures 0 <= ms < 100000 ==> |cmd| == 8
  {
    var digits := ZFill(IntToString(ms), 5);
    FiveDigits(ms);
    "$A" + digits + "*"
  }

  lemma FiveDigits(ms: int)
    ensures 0 <= ms < 100000 ==> |ZFill(IntToString(ms), 5)| == 5
  {
    if 0 <= ms < 100000 {
      NatToStringLength(ms, 5);
    }
  }

  /** The milliseconds can be read back from a gate-time command:
      `int(cmd[2:-1])` is the value it was made from, for every integer. */
  lemma GateTimeCommandRoundTrip(ms: int)
    ensures ParseInt(Slice(MakeGateTimeCommand(ms), 2, -1)) == Some(ms)
  {
    var digits := ZFill(IntToString(ms), 5);
    var cmd := MakeGateTimeCommand(ms);
    assert Slice(cmd, 2, -1) == digits;
    ParseIntZFill(ms, 5);
  }

  /** The four fixed `SET_GATE_TIME_*` members are exactly the commands
      `make_gate_time_command` builds for their gate times. */
  lemma FixedGateTimeCommands()
    ensures Payload(SetGateTime100ms) == MakeGateTimeCommand(100)
    ensures Payload(SetGateTime1000ms) == MakeGateTimeCommand(1000)
    ensures Payload(SetGateTime2000ms) == MakeGateTimeCommand(2000)
    ensures Payload(SetGateTime20000ms) == MakeGateTimeCommand(20000)
  {
    assert Payload(SetGateTime100ms) == "$A00100*";
    assert Payload(SetGateTime1000ms) == "$A01000*";
    assert Payload(SetGateTime2000ms) == "$A02000*";
    assert Payload(SetGateTime20000ms) == "$A20000*";
    GateTimeCommand100();
    GateTimeCommand1000();
    GateTimeCommand2000();
    GateTimeCommand20000();
  }

  lemma GateTimeCommand100()
    ensures MakeGateTimeCommand(100) == "$A00100*"
  {
    assert NatToString(100) == "100" by {
      assert NatToString(1) == "1";
      assert NatToString(10) == "10";
    }
    assert ZFill("100", 5) == "00100";
  }

  lemma GateTimeCommand1000()
    ensures MakeGateTimeCommand(1000) == "$A01000*"
  {
    assert NatToString(1000) == "1000" by {
      assert NatToString(1) == "1";
      assert NatToString(10) == "10";
      assert NatToString(100) == "100";
    }
    assert ZFill("1000", 5) == "01000";
  }

  lemma GateTimeCommand2000()
    ensures MakeGateTimeCommand(2000) == "$A02000*"
  {
    assert NatToString(2000) == "2000" by {
      assert NatToString(2) == "2";
      assert NatToString(20) == "20";
      assert NatToString(200) == "200";
    }
    assert ZFill("2000", 5) == "02000";
  }

  lemma GateTimeCommand20000()
    ensures MakeGateTimeCommand(20000) == "$A20000*"
  {
    assert NatToString(20000) == "20000" by {
      assert NatToString(2) == "2";
      assert NatToString(20) == "20";
      assert NatToString(200) == "200";
      assert NatToString(2000) == "2000";
    }
  }
}
