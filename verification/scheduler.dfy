/** The half-duplex command scheduler of the main window: commands wait in
    a FIFO queue and the next one is sent to the counter only after the
    counter has answered the previous one (a measurement line or an `OK`
    reply). The serial port is represented by the log of strings written
    to it. */
module Scheduler {
  import opened Wrappers
  import opened PyStr
  import opened Commands
  import opened Settings

  /** An entry of `command_queue`: a member of `Commands`, or a string
      typed by the user or built by `make_gate_time_command`. */
  datatype QueuedCommand = Known(command: Command) | Typed(text: string)

  /** The text `send_command` writes for a queue entry: a string as it is,
      a `Commands` member as its `.value`. */
  function Wire(q: QueuedCommand): string {
    match q
    case Known(c) => Payload(c)
    case Typed(t) => t
  }

  /** The release test of `read_data_from_thread`: the received line starts
      with `$` (a measurement) or the two characters before its last two
      (the CR LF) are `OK` (a reply to a command). */
  predicate Released(data: string)
    requires data != []
  {
    data[0] == '$' || Slice(data, -4, -2) == "OK"
  }

  /** `Released` in terms of positions: a `$` first, or `OK` at the
      fourth- and third-last characters of a line of at least four. */
  lemma ReleasedIff(data: string)
    requires data != []
    ensures Released(data) <==>
      data[0] == '$' || (|data| >= 4 && data[|data| - 4] == 'O' && data[|data| - 3] == 'K')
  {
    var r := Slice(data, -4, -2);
    if |data| >= 4 {
      assert |r| == 2 && r[0] == data[|data| - 4] && r[1] == data[|data| - 3];
      if data[|data| - 4] == 'O' && data[|data| - 3] == 'K' {
        assert r == "OK";
      }
    } else {
      assert |r| < 2;
    }
  }

  /** Every reply of the counter to a command, a line ending in `OK`
      followed by CR LF, releases the next command. */
  lemma ReplyReleases(body: string)
    requires |body| >= 2 && body[|body| - 2..] == "OK"
    ensures Released(body + "\r\n")
  {
    var data := body + "\r\n";
    ReleasedIff(data);
    assert data[|data| - 4] == body[|body| - 2] && data[|data| - 3] == body[|body| - 1];
  }

  /** A line that neither starts with `$` nor carries `OK` before its last
      two characters (an error message, say) keeps the queue waiting. */
  lemma OtherLinesHold(data: string)
    requires data != [] && data[0] != '$'
    requires |data| >= 4 ==> data[|data| - 4] != 'O'
    ensures !Released(data)
  {
    ReleasedIff(data);
  }

  /** Python's truth value of an optional flag: `None` and `False` are false. */
  predicate IsOn(flag: Option<bool>) {
    flag == Some(true)
  }

  /** The command a toggle button sends: the one that turns the setting
      off when it is known to be on, the one that turns it on otherwise. */
  function Toggle(flag: Option<bool>, turnOff: Command, turnOn: Command): (c: Command)
    ensures c == turnOff <==> IsOn(flag) || turnOn == turnOff
    ensures c == turnOn <==> !IsOn(flag) || turnOn == turnOff
  {
    if IsOn(flag) then turnOff else turnOn
  }

  /** The scheduler state: the module globals `command_queue`,
      `waiting_for_command` and `is_serial_port_established`, the window's
      `get_FA_settings` flag, and the port. */
  class CommandScheduler {
    var commandQueue: seq<QueuedCommand>
    var waitingForCommand: bool
    var isSerialPortEstablished: bool
    var getFASettings: bool
    /** Every string written to the serial port, in order. */
    ghost var written: seq<string>
    /** Every entry ever queued, and every entry taken from the queue. */
    ghost var enqueued: seq<QueuedCommand>
    ghost var dequeued: seq<QueuedCommand>

    /** The queue is first in, first out: what is still queued is what was
        queued and not yet taken, in the order it was queued. */
    ghost predicate Valid()
      reads this
    {
      enqueued == dequeued + commandQueue
    }

    /** The state at start-up: nothing queued, nothing written, not
        connected, and the settings to be requested on the first line. */
    constructor()
      ensures Valid()
      ensures commandQueue == [] && waitingForCommand && !isSerialPortEstablished && getFASettings
      ensures written == [] && enqueued == [] && dequeued == []
    {
      commandQueue := [];
      waitingForCommand := true;
      isSerialPortEstablished := false;
      getFASettings := true;
      written := [];
      enqueued := [];
      dequeued := [];
    }

    /** `send_to_command_buffer(command)`: the command joins the tail of the
        queue; nothing is written and no flag changes. */
    method SendToCommandBuffer(q: QueuedCommand)
      requires Valid()
      modifies this
      ensures Valid()
      ensures commandQueue == old(commandQueue) + [q]
      ensures enqueued == old(enqueued) + [q] && dequeued == old(dequeued)
      ensures written == old(written)
      ensures waitingForCommand == old(waitingForCommand)
      ensures isSerialPortEstablished == old(isSerialPortEstablished) && getFASettings == old(getFASettings)
    {
      commandQueue := commandQueue + [q];
      enqueued := enqueued + [q];
    }

    /** `send_command(command_str)`. A non-empty `commandStr` is sent as it
        is and the queue is left alone; otherwise the head of the queue is
        taken, or, when the queue is empty, the scheduler starts waiting and
        nothing is sent. What is sent reaches the port only when it is
        established; a taken head is consumed either way. */
    method SendCommand(commandStr: string)
      requires Valid()
      modifies this
      ensures Valid()
      ensures commandStr != "" ==>
        && commandQueue == old(commandQueue) && dequeued == old(dequeued)
        && !waitingForCommand
        && written == old(written) + (if isSerialPortEstablished then [commandStr] else [])
      ensures commandStr == "" && old(commandQueue) != [] ==>
        && commandQueue == old(commandQueue)[1..]
        && dequeued == old(dequeued) + [old(commandQueue)[0]]
        && !waitingForCommand
        && written == old(written) + (if isSerialPortEstablished then [Wire(old(commandQueue)[0])] else [])
      ensures commandStr == "" && old(commandQueue) == [] ==>
        && commandQueue == [] && dequeued == old(dequeued)
        && waitingForCommand
        && written == old(written)
      ensures enqueued == old(enqueued)
      ensures isSerialPortEstablished == old(isSerialPortEstablished) && getFASettings == old(getFASettings)
    {
      var command: QueuedCommand;
      if commandStr != "" {
        command := Typed(commandStr);
        waitingForCommand := false;
      } else if |commandQueue| > 0 {
        command := commandQueue[0];
        commandQueue := commandQueue[1..];
        dequeued := dequeued + [command];
        waitingForCommand := false;
      } else {
        waitingForCommand := true;
        return;
      }
      var text := Wire(command);
      if isSerialPortEstablished {
        written := written + [text];
      }
    }

    /** The scheduling part of `read_data_from_thread(data)`. The error
        message of the reader thread and any line while the port is not
        established change nothing. Otherwise the first line after a start
        queues the two settings requests, once, and a line that passes
        `Released` sends the next command. */
    method ReadDataFromThread(data: string)
      requires data != [] || !isSerialPortEstablished
      requires Valid()
      modifies this
      ensures Valid()
      ensures Contains(data, "ERROR_SERIAL_EXCEPTION") || !old(isSerialPortEstablished) ==>
        && commandQueue == old(commandQueue) && waitingForCommand == old(waitingForCommand)
        && getFASettings == old(getFASettings)
        && written == old(written) && enqueued == old(enqueued) && dequeued == old(dequeued)
      ensures !Contains(data, "ERROR_SERIAL_EXCEPTION") && old(isSerialPortEstablished) ==>
        var requests := if old(getFASettings) then [Known(GetFreqPowerSettings), Known(GetGateTimeSetting)] else [];
        var queue := old(commandQueue) + requests;
        && !getFASettings
        && enqueued == old(enqueued) + requests
        && (!Released(data) ==>
              commandQueue == queue && written == old(written) && waitingForCommand == old(waitingForCommand))
        && (Released(data) && queue == [] ==>
              commandQueue == [] && written == old(written) && waitingForCommand)
        && (Released(data) && queue != [] ==>
              commandQueue == queue[1..] && written == old(written) + [Wire(queue[0])] && !waitingForCommand)
      ensures isSerialPortEstablished == old(isSerialPortEstablished)
    {
      if Contains(data, "ERROR_SERIAL_EXCEPTION") {
        return;
      }
      if isSerialPortEstablished {
        if getFASettings {
          SendToCommandBuffer(Known(GetFreqPowerSettings));
          SendToCommandBuffer(Known(GetGateTimeSetting));
          getFASettings := false;
        }
        if Released(data) {
          SendCommand("");
        }
      }
    }

    /** The end of a successful `start_loop`: the port is established and
        the settings are to be requested again. `connected` is false when no
        port was selected or opening it failed; nothing changes then. */
    method StartLoop(connected: bool)
      requires Valid()
      modifies this
      ensures Valid()
      ensures connected ==> isSerialPortEstablished && getFASettings
      ensures !connected ==> isSerialPortEstablished == old(isSerialPortEstablished) && getFASettings == old(getFASettings)
      ensures commandQueue == old(commandQueue) && waitingForCommand == old(waitingForCommand)
      ensures written == old(written) && enqueued == old(enqueued) && dequeued == old(dequeued)
    {
      if connected {
        isSerialPortEstablished := true;
        getFASettings := true;
      }
    }

    /** `on_end_button_clicked`: the port is no longer established; the
        queue is kept. */
    method OnEndButtonClicked()
      requires Valid()
      modifies this
      ensures Valid()
      ensures !isSerialPortEstablished
      ensures commandQueue == old(commandQueue) && waitingForCommand == old(waitingForCommand)
      ensures getFASettings == old(getFASettings)
      ensures written == old(written) && enqueued == old(enqueued) && dequeued == old(dequeued)
    {
      isSerialPortEstablished := false;
    }

    /** A button that queues one command and then a settings request, so
        that the display follows the change. */
    method SendWithRefresh(c: Command)
      requires Valid()
      modifies this
      ensures Valid()
      ensures commandQueue == old(commandQueue) + [Known(c), Known(GetFreqPowerSettings)]
      ensures enqueued == old(enqueued) + [Known(c), Known(GetFreqPowerSettings)] && dequeued == old(dequeued)
      ensures written == old(written) && waitingForCommand == old(waitingForCommand)
      ensures isSerialPortEstablished == old(isSerialPortEstablished) && getFASettings == old(getFASettings)
    {
      SendToCommandBuffer(Known(c));
      SendToCommandBuffer(Known(GetFreqPowerSettings));
    }

    /** `channel_change_ch1`. */
    method ChannelChangeCh1()
      requires Valid()
      modifies this
      ensures Valid()
      ensures commandQueue == old(commandQueue) + [Known(SetCh1FreqAndPower), Known(GetFreqPowerSettings)]
      ensures written == old(written) && waitingForCommand == old(waitingForCommand)
      ensures isSerialPortEstablished == old(isSerialPortEstablished) && getFASettings == old(getFASettings)
    {
      SendWithRefresh(SetCh1FreqAndPower);
    }

    /** `channel_change_ch2`. */
    method ChannelChangeCh2()
      requires Valid()
      modifies this
      ensures Valid()
      ensures commandQueue == old(commandQueue) + [Known(SetCh2FreqAndPower), Known(GetFreqPowerSettings)]
      ensures written == old(written) && waitingForCommand == old(waitingForCommand)
      ensures isSerialPortEstablished == old(isSerialPortEstablished) && getFASettings == old(getFASettings)
    {
      SendWithRefresh(SetCh2FreqAndPower);
    }

    /** `channel_change_intosc`. */
    method ChannelChangeIntOsc()
      requires Valid()
      modifies this
      ensures Valid()
      ensures commandQueue == old(commandQueue) + [Known(SetInternal10MRef), Known(GetFreqPowerSettings)]
      ensures written == old(written) && waitingForCommand == old(waitingForCommand)
      ensures isSerialPortEstablished == old(isSerialPortEstablished) && getFASettings == old(getFASettings)
    {
      SendWithRefresh(SetInternal10MRef);
    }

    /** `get_settings_from_device`. */
    method GetSettingsFromDevice()
      requires Valid()
      modifies this
      ensures Valid()
      ensures commandQueue == old(commandQueue) + [Known(GetFreqPowerSettings)]
      ensures written == old(written) && waitingForCommand == old(waitingForCommand)
      ensures isSerialPortEstablished == old(isSerialPortEstablished) && getFASettings == old(getFASettings)
    {
      SendToCommandBuffer(Known(GetFreqPowerSettings));
    }

    /** `toggle_precision_mode`, reading the precision flag of the latest settings. */
    method TogglePrecisionMode(latest: Settings)
      requires Valid()
      modifies this
      ensures Valid()
      ensures commandQueue == old(commandQueue)
        + [Known(if IsOn(latest.precision) then HighPrecisionOff else HighPrecisionOn), Known(GetFreqPowerSettings)]
      ensures written == old(written) && waitingForCommand == old(waitingForCommand)
      ensures isSerialPortEstablished == old(isSerialPortEstablished) && getFASettings == old(getFASettings)
    {
      SendWithRefresh(Toggle(latest.precision, HighPrecisionOff, HighPrecisionOn));
    }

    /** `toggle_lpf`, reading the low-pass-filter flag of the latest settings. */
    method ToggleLpf(latest: Settings)
      requires Valid()
      modifies this
      ensures Valid()
      ensures commandQueue == old(commandQueue)
        + [Known(if IsOn(latest.lpf) then Ch1LpfOff else Ch1LpfOn), Known(GetFreqPowerSettings)]
      ensures written == old(written) && waitingForCommand == old(waitingForCommand)
      ensures isSerialPortEstablished == old(isSerialPortEstablished) && getFASettings == old(getFASettings)
    {
      SendWithRefresh(Toggle(latest.lpf, Ch1LpfOff, Ch1LpfOn));
    }

    /** `toggle_imp50`, reading the 50-ohm flag of the latest settings. */
    method ToggleImp50(latest: Settings)
      requires Valid()
      modifies this
      ensures Valid()
      ensures commandQueue == old(commandQueue)
        + [Known(if IsOn(latest.imp50) then Ch1Impedance1M else Ch1Impedance50), Known(GetFreqPowerSettings)]
      ensures written == old(written) && waitingForCommand == old(waitingForCommand)
      ensures isSerialPortEstablished == old(isSerialPortEstablished) && getFASettings == old(getFASettings)
    {
      SendWithRefresh(Toggle(latest.imp50, Ch1Impedance1M, Ch1Impedance50));
    }

    /** `get_prod_version_info`. */
    method GetProdVersionInfo()
      requires Valid()
      modifies this
      ensures Valid()
      ensures commandQueue == old(commandQueue) + [Known(GetProdVersion)]
      ensures written == old(written) && waitingForCommand == old(waitingForCommand)
      ensures isSerialPortEstablished == old(isSerialPortEstablished) && getFASettings == old(getFASettings)
    {
      SendToCommandBuffer(Known(GetProdVersion));
    }

    /** `set_gate_time` for a gate time chosen in whole milliseconds. */
    method SetGateTime(ms: int)
      requires Valid()
      modifies this
      ensures Valid()
      ensures commandQueue == old(commandQueue) + [Typed(MakeGateTimeCommand(ms))]
      ensures written == old(written) && waitingForCommand == old(waitingForCommand)
      ensures isSerialPortEstablished == old(isSerialPortEstablished) && getFASettings == old(getFASettings)
    {
      SendToCommandBuffer(Typed(MakeGateTimeCommand(ms)));
    }

    /** `write_data_button`: the typed text is queued only while the port
        is established; otherwise nothing changes. */
    method WriteDataButton(text: string)
      requires Valid()
      modifies this
      ensures Valid()
      ensures commandQueue == old(commandQueue) + (if isSerialPortEstablished then [Typed(text)] else [])
      ensures written == old(written) && waitingForCommand == old(waitingForCommand)
      ensures isSerialPortEstablished == old(isSerialPortEstablished) && getFASettings == old(getFASettings)
    {
      if isSerialPortEstablished {
        SendToCommandBuffer(Typed(text));
      }
    }
  }
}
