/**
 * The screen object itself: the fields its button listeners update in place.
 * `connected` stands for the socket being open, `log` for the lines written to
 * the socket's output stream. Every method leaves the object in the state the
 * matching Controller function computes from the state before it.
 */
module Activity {
  import opened Wire
  import Controller

  class MainActivity {
    var connected: bool
    var spiralActive: bool
    var speed: int
    var log: seq<string>

    /** The current fields as a Controller state. */
    function Snapshot(): Controller.State
      reads this
    {
      Controller.State(connected, spiralActive, speed, log)
    }

    ghost predicate Valid()
      reads this
    {
      Controller.Valid(Snapshot())
    }

    constructor ()
      ensures Snapshot() == Controller.Init()
      ensures Valid() && !connected && !spiralActive && speed == 1 && log == []
    {
      connected := false;
      spiralActive := false;
      speed := 1;
      log := [];
    }

    method SendCommand(command: string)
      modifies this
      ensures Snapshot() == Controller.SendCommand(old(Snapshot()), command)
      ensures old(Valid()) ==> Valid()
      ensures log == if old(connected) then old(log) + [command] else old(log)
      ensures connected == old(connected) && spiralActive == old(spiralActive) && speed == old(speed)
    {
      if !connected {
        return;
      }
      log := log + [command];
    }

    /** The speed button. */
    method CycleSpeed()
      modifies this
      ensures Snapshot() == Controller.CycleSpeed(old(Snapshot()))
      ensures old(Valid()) ==> Valid()
    {
      speed := if speed >= 3 then 1 else speed + 1;
      if spiralActive {
        SendCommand(Encode(SpiralSpeed(speed)));
      }
    }

    /** The connect button; the attempt it starts when disconnected is reported by OnConnected or OnConnectFailed. */
    method ToggleConnection()
      modifies this
      ensures Snapshot() == Controller.ToggleConnection(old(Snapshot()))
      ensures old(Valid()) ==> Valid()
      ensures !connected
    {
      if connected {
        DisconnectBluetooth();
      }
    }

    /** The connection attempt established the socket. */
    method OnConnected()
      modifies this
      ensures Snapshot() == Controller.OnConnected(old(Snapshot()))
      ensures old(Valid()) ==> Valid()
    {
      connected := true;
    }

    /** The connection attempt failed with an I/O error. */
    method OnConnectFailed()
      modifies this
      ensures Snapshot() == Controller.DisconnectBluetooth(old(Snapshot()))
      ensures old(Valid()) ==> Valid()
      ensures !connected
    {
      DisconnectBluetooth();
    }

    /** A motion event on the button for direction d. */
    method TouchDirection(d: Direction, a: Controller.TouchAction)
      modifies this
      ensures Snapshot() == Controller.TouchDirection(old(Snapshot()), d, a)
      ensures old(Valid()) ==> Valid()
    {
      match a
      case Down =>
        if spiralActive {
          StopSpiralSearch();
        } else {
          SendCommand(Encode(Move(d, Start)));
        }
      case Up | Cancel =>
        if !spiralActive {
          SendCommand(Encode(Move(d, Stop)));
        }
      case Other =>
    }

    /** The spiral button. */
    method ToggleSpiral()
      modifies this
      ensures Snapshot() == Controller.ToggleSpiral(old(Snapshot()))
      ensures old(Valid()) ==> Valid()
    {
      if !spiralActive {
        StartSpiralSearch();
      } else {
        StopSpiralSearch();
      }
    }

    method DisconnectBluetooth()
      modifies this
      ensures Snapshot() == Controller.DisconnectBluetooth(old(Snapshot()))
      ensures old(Valid()) ==> Valid()
      ensures !connected && spiralActive == old(spiralActive) && speed == old(speed) && log == old(log)
    {
      connected := false;
    }

    method StartSpiralSearch()
      modifies this
      ensures Snapshot() == Controller.StartSpiralSearch(old(Snapshot()))
      ensures old(Valid()) ==> Valid()
      ensures !old(connected) ==> unchanged(this)
    {
      if !connected {
        return;
      }
      spiralActive := true;
      SendCommand(Encode(SpiralStart(speed)));
    }

    method StopSpiralSearch()
      modifies this
      ensures Snapshot() == Controller.StopSpiralSearch(old(Snapshot()))
      ensures old(Valid()) ==> Valid()
      ensures !spiralActive
    {
      spiralActive := false;
      SendCommand(Encode(SpiralStop));
    }

    method OnDestroy()
      modifies this
      ensures Snapshot() == Controller.OnDestroy(old(Snapshot()))
      ensures old(Valid()) ==> Valid()
      ensures !connected && !spiralActive
    {
      StopSpiralSearch();
      DisconnectBluetooth();
    }
  }
}
