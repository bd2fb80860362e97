/** The program's module-level variables and the handlers that update them
    in place, each proved to do what the transition function `Session.Next`
    says. */
module Server {
  import opened Wrappers
  import opened Text
  import opened ResponseParser
  import opened Session

  class Bridge {
    var clientState: ClientState
    var mpdVersion: string
    var mpdStatus: Record
    var mpdSong: Record
    /** The pending HTTP response, `null` when nobody waits. */
    var response: Option<ResponseId>
    /** Everything written to the socket or to an HTTP response so far, in order. */
    var effects: seq<Effect>

    /** The variables as a value. */
    function Snapshot(): State
      reads this
    {
      State(clientState, mpdVersion, mpdStatus, mpdSong, response)
    }

    /** The variables as declared, before any event. */
    constructor ()
      ensures Snapshot() == Initial && effects == []
    {
      clientState := 0;
      mpdVersion := "";
      mpdStatus := map[];
      mpdSong := map[];
      response := None;
      effects := [];
    }

    /** `sendResponse(data)` */
    method SendResponse(data: Payload)
      modifies this
      ensures Snapshot() == Respond(old(Snapshot()), data).0
      ensures effects == old(effects) + Respond(old(Snapshot()), data).1
    {
      if response.None? {
        return;
      }
      effects := effects + [Deliver(response.value, data)];
      response := None;
    }

    /** `socket.on('data', ...)` */
    method OnData(data: string)
      modifies this
      ensures Snapshot() == Next(old(Snapshot()), Data(data)).0
      ensures effects == old(effects) + Next(old(Snapshot()), Data(data)).1
    {
      var lines := Split(data, '\n');
      if clientState == 0 {
        var matches := MatchGreeting(lines[0]);
        if matches.Some? {
          clientState := 1;
          mpdVersion := matches.value;
          effects := effects + [Write(StatusCommand)];
        } else {
          effects := effects + [Destroy];
        }
      } else if clientState == 1 {
        clientState := 2;
        mpdStatus := ParseResponse(lines);
        effects := effects + [Write(CurrentSongCommand)];
      } else if clientState == 2 {
        clientState := 3;
        mpdSong := ParseResponse(lines);
        effects := effects + [Write(CloseCommand)];
        SendResponse(Ok(mpdStatus, mpdSong));
      }
    }

    /** `socket.on('close', ...)` */
    method OnClose()
      modifies this
      ensures Snapshot() == Next(old(Snapshot()), Closed).0
      ensures effects == old(effects) + Next(old(Snapshot()), Closed).1
    {
      clientState := 0;
    }

    /** `socket.on('error', ...)` */
    method OnError(message: string)
      modifies this
      ensures Snapshot() == Next(old(Snapshot()), Failed(message)).0
      ensures effects == old(effects) + Next(old(Snapshot()), Failed(message)).1
    {
      SendResponse(Err(message));
    }

    /** `getSong()`: start a connection to the daemon. */
    method GetSong()
      modifies this
      ensures Snapshot() == old(Snapshot())
      ensures effects == old(effects) + [Connect]
    {
      effects := effects + [Connect];
    }

    /** The `/status` route handler. */
    method HandleGet(res: ResponseId)
      modifies this
      ensures Snapshot() == Next(old(Snapshot()), Get(res)).0
      ensures effects == old(effects) + Next(old(Snapshot()), Get(res)).1
    {
      response := Some(res);
      GetSong();
    }
  }

  /** One `/status` request served from a fresh start by a daemon that greets
      correctly: the socket sees `status`, `currentsong` and `close`, in that
      order, and the caller is answered once with both parsed replies. */
  method ServeStatus(res: ResponseId, version: string, statusData: string, songData: string)
    returns (effects: seq<Effect>)
    requires IsVersion(version)
    ensures effects == [Connect, Write(StatusCommand), Write(CurrentSongCommand), Write(CloseCommand),
                        Deliver(res, Ok(Parse(Split(statusData, '\n')), Parse(Split(songData, '\n'))))]
  {
    var server := new Bridge();
    server.HandleGet(res);
    assert server.Snapshot() == Initial.(response := Some(res));
    GreetingAccepted(server.Snapshot(), version, "");
    assert GreetingPrefix + version + "\n" + "" == GreetingPrefix + version + "\n";
    server.OnData(GreetingPrefix + version + "\n");
    StatusReceived(server.Snapshot(), statusData);
    server.OnData(statusData);
    SongReceived(server.Snapshot(), songData);
    server.OnData(songData);
    effects := server.effects;
  }
}
