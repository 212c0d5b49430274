/** Event-marker ("trigger") output to EEG recording hardware (port_funcs.py).

    A port is modelled by the sequence of values its driver has been handed.
    `trigselect` is called once per screen refresh: it clears the port to 0,
    then writes the trigger code if the caller's flag `send` is 1, and hands
    the flag back reset to 0.  `portreset` drives 255 then 0 as a baseline
    cycle, and `initTrig` opens one port variant and resets it. */
module Triggers {

  /** One value handed to a port driver: a numeric write (parallel `setData`,
      NI-DAQ `write`) or the one-character string `chr(value)` that the serial
      driver's `write` receives. */
  datatype Wire = Byte(value: int) | Chr(value: int)

  /** The `add` argument of `initTrig`: the integer default 0, a numeric
      register address, or a device name such as "COM3". */
  datatype Address = Num(n: int) | Name(s: string)

  /** Python `add != 0`: every address except the integer 0. */
  predicate Given(add: Address)
  {
    !(add.Num? && add.n == 0)
  }

  /** The three hardware variants a port object can be. */
  datatype Device = Parallel(address: Address) | NiDaq(libraryPath: string) | Serial(address: Address)

  const ParallelMode := 1
  const NiDaqMode := 2
  const SerialMode := 3

  /** Reset cycle values: everything high, then the idle value. */
  const MaxValue := 255
  const BaseValue := 0

  /** Address of the standard LPT1 register, used when `add` is 0. */
  const StandardLpt1 := 888

  /** Python 2's `chr(v)` (the interpreter whose indentation rules the source
      follows) raises ValueError unless 0 <= v < ChrLimit. */
  const ChrLimit := 256

  /** The mode selector whose branch drives a port of this variant. */
  function ModeOf(d: Device): (mode: int)
    ensures mode == ParallelMode <==> d.Parallel?
    ensures mode == NiDaqMode <==> d.NiDaq?
    ensures mode == SerialMode <==> d.Serial?
  {
    match d
    case Parallel(_) => ParallelMode
    case NiDaq(_) => NiDaqMode
    case Serial(_) => SerialMode
  }

  predicate IsPortMode(mode: int)
  {
    mode == ParallelMode || mode == NiDaqMode || mode == SerialMode
  }

  /** Python `mode == k and port` for k in 1..3: the call drives the port. */
  predicate Drives(mode: int, present: bool)
  {
    present && IsPortMode(mode)
  }

  /** How a value `v` reaches the driver in a given mode: raw in modes 1 and 2,
      `chr(int(v))` in mode 3. */
  function Encode(mode: int, v: int): (w: Wire)
    ensures w.value == v
    ensures w.Chr? <==> mode == SerialMode
  {
    if mode == SerialMode then Chr(v) else Byte(v)
  }

  /** A hardware port handle. Its driver is foreign code; the model keeps the
      values handed to it, oldest first. */
  class Port {
    const device: Device
    var log: seq<Wire>

    /** `parallel.ParallelPort(address)`, `nidaq_init(path)` or `serial_init(add)`. */
    constructor Open(device: Device)
      ensures this.device == device && log == []
    {
      this.device := device;
      log := [];
    }

    /** Parallel-port register write. */
    method SetData(v: int)
      modifies this
      ensures log == old(log) + [Byte(v)]
    {
      log := log + [Byte(v)];
    }

    /** NI-DAQ task write (a raw value) or serial write (a one-character string). */
    method Write(w: Wire)
      modifies this
      ensures log == old(log) + [w]
    {
      log := log + [w];
    }
  }

  /** `nidaq_init(path)`: an NI-DAQ task on lines 0-7 of Dev1/port0. */
  method NidaqInit(path: string) returns (port: Port)
    ensures fresh(port) && port.device == NiDaq(path) && port.log == []
  {
    port := new Port.Open(NiDaq(path));
  }

  /** `serial_init(add)`: a serial port opened at `add`. */
  method SerialInit(add: Address) returns (port: Port)
    ensures fresh(port) && port.device == Serial(add) && port.log == []
  {
    port := new Port.Open(Serial(add));
  }

  // ---------------------------------------------------------------------
  // trigselect: the per-frame clear-then-fire step

  /** What one `trigselect` call hands to a present port. */
  function FireWrites(code: int, send: int, mode: int, present: bool): seq<Wire>
  {
    if !Drives(mode, present) then []
    else [Encode(mode, BaseValue)] + (if send == 1 then [Encode(mode, code)] else [])
  }

  /** The flag value `trigselect` returns: a raised flag (1) comes back as 0,
      anything else comes back unchanged. */
  function FireFlag(send: int): int
  {
    if send == 1 then 0 else send
  }

  /** `trigselect(code, send, mode, port, clock)`. The port `[]` of the source
      is `null`; the clock is only present or absent. `stamped` says whether the
      "code sent at time" line was printed (which reads the clock). */
  method TrigSelect(code: int, send: int, mode: int, port: Port?, clock: bool)
    returns (sent: int, stamped: bool)
    requires port != null && IsPortMode(mode) ==> ModeOf(port.device) == mode
    requires port != null && mode == SerialMode && send == 1 ==> 0 <= code < ChrLimit
    requires send == 1 && !Drives(mode, port != null) ==> clock
    modifies port
    ensures port != null ==> port.log == old(port.log) + FireWrites(code, send, mode, true)
    ensures sent == FireFlag(send) && sent != 1
    ensures stamped <==> send == 1 && (clock || !Drives(mode, port != null))
  {
    sent, stamped := send, false;
    if mode == ParallelMode && port != null {
      port.SetData(0);
      if send == 1 {
        port.SetData(code);
        sent := 0;
        stamped := clock;
      }
    } else if mode == NiDaqMode && port != null {
      port.Write(Byte(0));
      if send == 1 {
        port.Write(Byte(code));
        sent := 0;
        stamped := clock;
      }
    } else if mode == SerialMode && port != null {
      port.Write(Chr(0));
      if send == 1 {
        port.Write(Chr(code));
        sent := 0;
        stamped := clock;
      }
    } else {
      if send == 1 {
        stamped := true;
        sent := 0;
      }
    }
  }

  /** In modes 1-3 with a port, the first write of every call clears the port;
      an armed call then writes the code as its second and last write, and an
      unarmed call writes nothing else. */
  lemma ClearThenSet(code: int, send: int, mode: int)
    requires IsPortMode(mode)
    ensures var ws := FireWrites(code, send, mode, true);
      |ws| >= 1 && ws[0] == Encode(mode, 0) &&
      (send == 1 ==> |ws| == 2 && ws[1] == Encode(mode, code)) &&
      (send != 1 ==> |ws| == 1)
  {
  }

  /** Any other mode, or no port: nothing is written, and a raised flag is
      still handed back as 0. */
  lemma FallbackWritesNothing(code: int, send: int, mode: int, present: bool)
    requires !Drives(mode, present)
    ensures FireWrites(code, send, mode, present) == []
    ensures send == 1 ==> FireFlag(send) == 0
  {
  }

  /** A code fired on one call is cleared by the next call made with the flag
      that call returned: the code is the last value of the first call only. */
  lemma OneFrameVisibility(code: int, nextCode: int, mode: int)
    requires IsPortMode(mode)
    ensures var first := FireWrites(code, 1, mode, true);
      var both := first + FireWrites(nextCode, FireFlag(1), mode, true);
      first[|first| - 1] == Encode(mode, code) && both[|both| - 1] == Encode(mode, 0)
  {
  }

  /** The serial branch writes `chr` of exactly the values the parallel and
      NI-DAQ branches write raw, clear and code alike. */
  lemma SerialEncodesSameValues(code: int, send: int, rawMode: int)
    requires rawMode == ParallelMode || rawMode == NiDaqMode
    ensures var raw := FireWrites(code, send, rawMode, true);
      var ser := FireWrites(code, send, SerialMode, true);
      |ser| == |raw| &&
      forall i :: 0 <= i < |raw| ==> raw[i] == Byte(raw[i].value) && ser[i] == Chr(raw[i].value)
  {
  }

  // ---------------------------------------------------------------------
  // The calling protocol: one call per frame, the flag threaded through

  /** One frame of the experiment loop: the code passed to `trigselect`, and
      whether a stimulus onset sets the caller's flag to 1 before the call. */
  datatype Frame = Frame(code: int, onset: bool)

  /** The flag passed to `trigselect` on a frame, given the one returned by the
      previous call. */
  function Armed(send: int, f: Frame): int
  {
    if f.onset then 1 else send
  }

  /** Everything handed to a present port over consecutive frames when the
      caller writes `send = trigselect(code, send, mode, port)` each frame. */
  function SessionWrites(mode: int, send: int, frames: seq<Frame>): seq<Wire>
    decreases |frames|
  {
    if frames == [] then []
    else
      var flag := Armed(send, frames[0]);
      FireWrites(frames[0].code, flag, mode, true) + SessionWrites(mode, FireFlag(flag), frames[1..])
  }

  /** After the call on frame k the port holds that frame's code if the flag was
      raised for it (an onset on frame k, or an initial flag of 1 on frame 0),
      and 0 otherwise: a code never outlives its frame, and a session without
      onsets keeps the port at 0. */
  lemma {:induction false} PortValueAfterFrame(mode: int, send: int, frames: seq<Frame>, k: nat)
    requires IsPortMode(mode)
    requires k < |frames|
    decreases k
    ensures var ws := SessionWrites(mode, send, frames[..k + 1]);
      |ws| > 0 &&
      ws[|ws| - 1] == Encode(mode, if frames[k].onset || (k == 0 && send == 1) then frames[k].code else 0)
  {
    var flag := Armed(send, frames[0]);
    var head := FireWrites(frames[0].code, flag, mode, true);
    var prefix := frames[..k + 1];
    assert prefix[0] == frames[0];
    if k == 0 {
      assert prefix[1..] == [];
      assert SessionWrites(mode, send, prefix) == head;
    } else {
      assert prefix[1..] == frames[1..][..k];
      PortValueAfterFrame(mode, FireFlag(flag), frames[1..], k - 1);
      var tail := SessionWrites(mode, FireFlag(flag), frames[1..][..k]);
      assert SessionWrites(mode, send, prefix) == head + tail;
    }
  }

  // ---------------------------------------------------------------------
  // portreset and initTrig

  /** What `portreset(mode, port)` hands to a present port. */
  function ResetWrites(mode: int, present: bool): seq<Wire>
  {
    if Drives(mode, present) then [Encode(mode, MaxValue), Encode(mode, BaseValue)] else []
  }

  /** `portreset(mode, port)`; the one-second hold between the writes is not
      modelled. */
  method PortReset(mode: int, port: Port?)
    requires port != null && IsPortMode(mode) ==> ModeOf(port.device) == mode
    modifies port
    ensures port != null ==> port.log == old(port.log) + ResetWrites(mode, true)
  {
    if mode == ParallelMode && port != null {
      port.SetData(MaxValue);
      port.SetData(BaseValue);
    } else if mode == NiDaqMode && port != null {
      port.Write(Byte(MaxValue));
      port.Write(Byte(BaseValue));
    } else if mode == SerialMode && port != null {
      port.Write(Chr(MaxValue));
      port.Write(Chr(BaseValue));
    }
  }

  /** The reset cycle writes exactly 255 and then 0 in modes 1-3 (as characters
      in mode 3) and nothing otherwise, so it leaves the port idle. */
  lemma ResetBaseline(mode: int, present: bool)
    ensures var ws := ResetWrites(mode, present);
      (Drives(mode, present) ==> |ws| == 2 && ws[0] == Encode(mode, 255) && ws[1] == Encode(mode, 0)) &&
      (!Drives(mode, present) ==> ws == [])
  {
  }

  /** `initTrig(mode, add, path)`: opens the port the mode asks for and resets
      it once; `null` is the source's "no port" sentinel `[]`. */
  method InitTrig(mode: int, add: Address, path: string) returns (port: Port?)
    ensures mode == ParallelMode ==>
      port != null && fresh(port) &&
      port.device == Parallel(if Given(add) then add else Num(StandardLpt1))
    ensures mode == NiDaqMode ==> port != null && fresh(port) && port.device == NiDaq(path)
    ensures mode == SerialMode && Given(add) ==> port != null && fresh(port) && port.device == Serial(add)
    ensures !(mode == ParallelMode || mode == NiDaqMode || (mode == SerialMode && Given(add))) ==> port == null
    ensures port != null ==> ModeOf(port.device) == mode && port.log == ResetWrites(mode, true)
  {
    if mode == ParallelMode {
      if Given(add) {
        port := new Port.Open(Parallel(add));
        PortReset(mode, port);
      } else {
        port := new Port.Open(Parallel(Num(StandardLpt1)));
        PortReset(mode, port);
      }
    } else if mode == NiDaqMode {
      port := NidaqInit(path);
      PortReset(mode, port);
    } else if mode == SerialMode && Given(add) {
      // The branch guard already demands `add != 0`, so the source's inner
      // fall-back to serial_init() and its "COM6" default is dead code.
      port := SerialInit(add);
      PortReset(mode, port);
    } else {
      port := null;
    }
  }
}
