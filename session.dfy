/** The conversation with the music player daemon and the single pending
    HTTP response, as a transition function on the program's module-level
    variables: the socket's `data`, `close` and `error` handlers,
    `sendResponse`, and the `/status` route handler. */
module Session {
  import opened Wrappers
  import opened Text
  import opened ResponseParser

  /** Stands for the HTTP response object `res` handed to the `/status` route. */
  type ResponseId = nat

  /** `clientState`: 0 before the greeting, 1 waiting for the status reply,
      2 waiting for the current-song reply, 3 done. */
  type ClientState = n: nat | n <= 3

  /** The object given to `sendResponse`, before `JSON.stringify`. */
  datatype Payload =
    | Ok(status: Record, currentSong: Record)
    | Err(message: string)

  /** What the program does to the outside world. */
  datatype Effect =
    | Connect                                    // socket.connect(mpd port, mpd host)
    | Write(text: string)                        // socket.write(text)
    | Destroy                                    // socket.destroy()
    | Deliver(res: ResponseId, payload: Payload) // res.writeHead(200, ...); res.end(JSON)

  /** What the event loop hands to the program. */
  datatype Event =
    | Data(data: string)      // the socket's 'data' event, decoded to a string
    | Closed                  // the socket's 'close' event
    | Failed(message: string) // the socket's 'error' event, with err.message
    | Get(res: ResponseId)    // an HTTP GET /status

  /** The module-level variables `clientState`, `mpdVersion`, `mpdStatus`,
      `mpdSong` and `response`. */
  datatype State = State(
    clientState: ClientState,
    mpdVersion: string,
    mpdStatus: Record,
    mpdSong: Record,
    response: Option<ResponseId>)

  /** The values the variables are declared with. */
  const Initial: State := State(0, "", map[], map[], None)

  const StatusCommand: string := "status\n"
  const CurrentSongCommand: string := "currentsong\n"
  const CloseCommand: string := "close\n"

  // ---------------------------------------------------------------------
  // The greeting, /^OK MPD ([0-9.]+)$/
  // ---------------------------------------------------------------------

  const GreetingPrefix: string := "OK MPD "

  predicate IsVersionChar(c: char) {
    '0' <= c <= '9' || c == '.'
  }

  /** `[0-9.]+` */
  predicate IsVersion(v: string) {
    |v| > 0 && forall i :: 0 <= i < |v| ==> IsVersionChar(v[i])
  }

  /** `line.match(/^OK MPD ([0-9.]+)$/)`, giving `matches[1]`. */
  function MatchGreeting(line: string): (r: Option<string>)
    ensures r.Some? ==> IsVersion(r.value) && line == GreetingPrefix + r.value
  {
    var n := |GreetingPrefix|;
    if n <= |line| && line[..n] == GreetingPrefix && IsVersion(line[n..])
    then
      assert line == line[..n] + line[n..];
      Some(line[n..])
    else None
  }

  /** Every well-formed greeting is accepted and yields exactly its version. */
  lemma MatchGreetingComplete(v: string)
    requires IsVersion(v)
    ensures MatchGreeting(GreetingPrefix + v) == Some(v)
  {
    var line := GreetingPrefix + v;
    assert line[..|GreetingPrefix|] == GreetingPrefix;
    assert line[|GreetingPrefix|..] == v;
  }

  // ---------------------------------------------------------------------
  // The transitions.
  // ---------------------------------------------------------------------

  /** `sendResponse(data)`: answer the pending response, if any, and clear
      the slot. */
  function Respond(s: State, data: Payload): (State, seq<Effect>) {
    match s.response
    case None => (s, [])
    case Some(res) => (s.(response := None), [Deliver(res, data)])
  }

  /** The socket's `data` handler. */
  function DataStep(s: State, data: string): (State, seq<Effect>) {
    var lines := Split(data, '\n');
    if s.clientState == 0 then
      match MatchGreeting(lines[0])
      case Some(version) => (s.(clientState := 1, mpdVersion := version), [Write(StatusCommand)])
      case None => (s, [Destroy])
    else if s.clientState == 1 then
      (s.(clientState := 2, mpdStatus := Parse(lines)), [Write(CurrentSongCommand)])
    else if s.clientState == 2 then
      var done := s.(clientState := 3, mpdSong := Parse(lines));
      var sent := Respond(done, Ok(done.mpdStatus, done.mpdSong));
      (sent.0, [Write(CloseCommand)] + sent.1)
    else
      (s, [])
  }

  /** What one event does to the variables, and the effects it has. */
  function Next(s: State, e: Event): (State, seq<Effect>) {
    match e
    case Data(data) => DataStep(s, data)
    case Closed => (s.(clientState := 0), [])
    case Failed(message) => Respond(s, Err(message))
    case Get(res) => (s.(response := Some(res)), [Connect])
  }

  /** A sequence of events, one after the other. */
  function Run(s: State, events: seq<Event>): (State, seq<Effect>)
    decreases |events|
  {
    if events == [] then (s, [])
    else
      var first := Next(s, events[0]);
      var rest := Run(first.0, events[1..]);
      (rest.0, first.1 + rest.1)
  }

  // ---------------------------------------------------------------------
  // One event at a time.
  // ---------------------------------------------------------------------

  /** A well-formed greeting ends the first phase: the version is recorded,
      `status` is requested, and whatever follows the first line is ignored. */
  lemma GreetingAccepted(s: State, version: string, rest: string)
    requires s.clientState == 0 && IsVersion(version)
    ensures Next(s, Data(GreetingPrefix + version + "\n" + rest))
      == (s.(clientState := 1, mpdVersion := version), [Write(StatusCommand)])
  {
    var line := GreetingPrefix + version;
    assert '\n' !in line by {
      forall i | 0 <= i < |line| ensures line[i] != '\n' {
        if i >= |GreetingPrefix| {
          assert line[i] == version[i - |GreetingPrefix|];
        }
      }
    }
    SplitAfterPiece(line, rest, '\n');
    assert GreetingPrefix + version + "\n" + rest == line + ['\n'] + rest;
    MatchGreetingComplete(version);
  }

  /** The greeting decides on the chunk's first line alone: a chunk that is
      exactly a well-formed greeting, or starts with one followed by a
      newline, is accepted whatever comes after. */
  lemma GreetingChunkAccepted(s: State, version: string, data: string)
    requires s.clientState == 0 && IsVersion(version)
    requires data == GreetingPrefix + version || GreetingPrefix + version + "\n" <= data
    ensures Next(s, Data(data))
      == (s.(clientState := 1, mpdVersion := version), [Write(StatusCommand)])
  {
    var line := GreetingPrefix + version;
    if data == line {
      assert '\n' !in line by {
        forall i | 0 <= i < |line| ensures line[i] != '\n' {
          if i >= |GreetingPrefix| {
            assert line[i] == version[i - |GreetingPrefix|];
          }
        }
      }
      SplitNoSeparator(line, '\n');
      MatchGreetingComplete(version);
    } else {
      var rest := data[|line| + 1..];
      assert data == line + "\n" + rest;
      GreetingAccepted(s, version, rest);
    }
  }

  /** Any other first line makes the program destroy the socket and do
      nothing else: the state stays 0, nothing is written, nobody is answered. */
  lemma GreetingRejected(s: State, data: string)
    requires s.clientState == 0 && MatchGreeting(Split(data, '\n')[0]).None?
    ensures Next(s, Data(data)) == (s, [Destroy])
  {
  }

  /** Only the first line of the greeting reply matters. */
  lemma GreetingOnlyFirstLine(s: State, d1: string, d2: string)
    requires s.clientState == 0 && Split(d1, '\n')[0] == Split(d2, '\n')[0]
    ensures Next(s, Data(d1)) == Next(s, Data(d2))
  {
  }

  /** The status reply is parsed and stored, and `currentsong` is requested. */
  lemma StatusReceived(s: State, data: string)
    requires s.clientState == 1
    ensures Next(s, Data(data))
      == (s.(clientState := 2, mpdStatus := Parse(Split(data, '\n'))), [Write(CurrentSongCommand)])
  {
  }

  /** The current-song reply is parsed and stored, `close` is written, and
      then the pending response, if any, gets both records. */
  lemma SongReceived(s: State, data: string)
    requires s.clientState == 2
    ensures var song := Parse(Split(data, '\n'));
      Next(s, Data(data)) ==
        (s.(clientState := 3, mpdSong := song, response := None),
         [Write(CloseCommand)] + (if s.response.Some? then [Deliver(s.response.value, Ok(s.mpdStatus, song))] else []))
  {
  }

  /** Once done, any number of further data chunks is ignored: duplicate or
      late replies neither change a variable nor touch the socket. */
  lemma {:induction false} DoneIgnoresData(s: State, chunks: seq<Event>)
    requires s.clientState == 3
    requires forall i :: 0 <= i < |chunks| ==> chunks[i].Data?
    ensures Run(s, chunks) == (s, [])
    decreases |chunks|
  {
    if chunks != [] {
      assert Next(s, chunks[0]) == (s, []);
      DoneIgnoresData(s, chunks[1..]);
      var none: seq<Effect> := [];
      assert Run(s, chunks) == (s, none + none);
      assert none + none == none;
    }
  }

  /** `close` resets the phase to 0 and touches nothing else. */
  lemma CloseResets(s: State)
    ensures Next(s, Closed) == (s.(clientState := 0), [])
  {
  }

  /** `error` answers the pending response with the message, clears the slot
      and leaves the phase alone. */
  lemma ErrorDelivers(s: State, message: string)
    ensures Next(s, Failed(message)).0 == s.(response := None)
    ensures Next(s, Failed(message)).1 ==
      if s.response.Some? then [Deliver(s.response.value, Err(message))] else []
  {
  }

  /** `sendResponse` answers at most once: a second call finds the slot
      empty and does nothing. */
  lemma RespondAtMostOnce(s: State, first: Payload, second: Payload)
    ensures Respond(Respond(s, first).0, second) == (Respond(s, first).0, [])
  {
  }

  /** A GET overwrites the slot, whatever it held, and connects. */
  lemma GetOverwritesSlot(s: State, res: ResponseId)
    ensures Next(s, Get(res)) == (s.(response := Some(res)), [Connect])
  {
  }

  // ---------------------------------------------------------------------
  // Whole sessions.
  // ---------------------------------------------------------------------

  /** A single event. */
  lemma RunSingle(s: State, e: Event)
    ensures Run(s, [e]) == Next(s, e)
  {
    assert [e][1..] == [];
    assert Next(s, e).1 + [] == Next(s, e).1;
  }

  /** Running two event sequences one after the other. */
  lemma {:induction false} RunAppend(s: State, a: seq<Event>, b: seq<Event>)
    ensures Run(s, a + b) ==
      (Run(Run(s, a).0, b).0, Run(s, a).1 + Run(Run(s, a).0, b).1)
    decreases |a|
  {
    if a != [] {
      assert (a + b)[0] == a[0] && (a + b)[1..] == a[1..] + b;
      var first := Next(s, a[0]);
      RunAppend(first.0, a[1..], b);
      var mid := Run(first.0, a[1..]);
      var last := Run(mid.0, b);
      assert Run(s, a + b) == (Run(first.0, a[1..] + b).0, first.1 + Run(first.0, a[1..] + b).1);
      assert Run(s, a) == (mid.0, first.1 + mid.1);
      assert first.1 + (mid.1 + last.1) == (first.1 + mid.1) + last.1;
    } else {
      assert a + b == b;
      assert Run(s, a).1 + Run(s, b).1 == Run(s, b).1;
    }
  }

  /** The events of one successful `/status` request. */
  function HappyEvents(res: ResponseId, version: string, statusData: string, songData: string): seq<Event> {
    [Get(res), Data(GreetingPrefix + version + "\n"), Data(statusData), Data(songData)]
  }

  /** A request answered by a daemon that greets correctly: exactly the
      three commands are written, in order, and the caller gets both parsed
      replies, once. Whatever was stored before is replaced. */
  lemma HappySession(s: State, res: ResponseId, version: string, statusData: string, songData: string)
    requires s.clientState == 0 && IsVersion(version)
    ensures var status := Parse(Split(statusData, '\n'));
      var song := Parse(Split(songData, '\n'));
      Run(s, HappyEvents(res, version, statusData, songData)) ==
        (State(3, version, status, song, None),
         [Connect, Write(StatusCommand), Write(CurrentSongCommand), Write(CloseCommand), Deliver(res, Ok(status, song))])
  {
    var status := Parse(Split(statusData, '\n'));
    var song := Parse(Split(songData, '\n'));
    var s1 := s.(response := Some(res));
    var s2 := s1.(clientState := 1, mpdVersion := version);
    var s3 := s2.(clientState := 2, mpdStatus := status);
    var s4 := State(3, version, status, song, None);
    var greeting := Data(GreetingPrefix + version + "\n");
    GreetingAccepted(s1, version, "");
    assert GreetingPrefix + version + "\n" + "" == GreetingPrefix + version + "\n";
    assert [Get(res)] + [greeting] == [Get(res), greeting];
    RunAppend(s, [Get(res)], [greeting]);
    RunSingle(s, Get(res));
    RunSingle(s1, greeting);
    assert [Connect] + [Write(StatusCommand)] == [Connect, Write(StatusCommand)];
    assert Run(s, [Get(res), greeting]) == (s2, [Connect, Write(StatusCommand)]);
    assert [Get(res), greeting] + [Data(statusData)] == [Get(res), greeting, Data(statusData)];
    RunAppend(s, [Get(res), greeting], [Data(statusData)]);
    RunSingle(s2, Data(statusData));
    assert [Connect, Write(StatusCommand)] + [Write(CurrentSongCommand)] == [Connect, Write(StatusCommand), Write(CurrentSongCommand)];
    assert Run(s, [Get(res), greeting, Data(statusData)]) == (s3, [Connect, Write(StatusCommand), Write(CurrentSongCommand)]);
    assert [Get(res), greeting, Data(statusData)] + [Data(songData)] == HappyEvents(res, version, statusData, songData);
    RunAppend(s, [Get(res), greeting, Data(statusData)], [Data(songData)]);
    RunSingle(s3, Data(songData));
    SongReceived(s3, songData);
    assert s3.response == Some(res) && s3.mpdStatus == status;
    assert s3.(clientState := 3, mpdSong := song, response := None) == s4;
    assert [Write(CloseCommand)] + [Deliver(res, Ok(status, song))] == [Write(CloseCommand), Deliver(res, Ok(status, song))];
    assert Next(s3, Data(songData)) == (s4, [Write(CloseCommand), Deliver(res, Ok(status, song))]);
    assert [Connect, Write(StatusCommand), Write(CurrentSongCommand)] + [Write(CloseCommand), Deliver(res, Ok(status, song))]
      == [Connect, Write(StatusCommand), Write(CurrentSongCommand), Write(CloseCommand), Deliver(res, Ok(status, song))];
  }

  /** After a successful request, stray data changes nothing and the
      socket's `close` returns the phase to 0: still exactly one answer and
      one `close` command. */
  lemma HappySessionThenClose(s: State, res: ResponseId, version: string, statusData: string, songData: string, stray: string)
    requires s.clientState == 0 && IsVersion(version)
    ensures var status := Parse(Split(statusData, '\n'));
      var song := Parse(Split(songData, '\n'));
      Run(s, HappyEvents(res, version, statusData, songData) + [Data(stray), Closed]) ==
        (State(0, version, status, song, None),
         [Connect, Write(StatusCommand), Write(CurrentSongCommand), Write(CloseCommand), Deliver(res, Ok(status, song))])
  {
    var events := HappyEvents(res, version, statusData, songData);
    HappySession(s, res, version, statusData, songData);
    RunAppend(s, events, [Data(stray), Closed]);
    var mid := Run(s, events).0;
    assert Run(s, events).1 + [] == Run(s, events).1;
    assert Run(mid, [Data(stray), Closed]) == (mid.(clientState := 0), []) by {
      assert [Data(stray)] + [Closed] == [Data(stray), Closed];
      RunAppend(mid, [Data(stray)], [Closed]);
      RunSingle(mid, Data(stray));
      RunSingle(mid, Closed);
    }
  }

  /** Three newline-free lines, each ended by a newline, split into those
      lines and a final empty piece. */
  lemma SplitThreeLines(a: string, b: string, c: string)
    requires '\n' !in a && '\n' !in b && '\n' !in c
    ensures Split(a + "\n" + b + "\n" + c + "\n", '\n') == [a, b, c, ""]
  {
    SplitAfterPiece(c, "", '\n');
    assert c + ['\n'] + "" == c + "\n";
    SplitAfterPiece(b, c + "\n", '\n');
    assert b + ['\n'] + (c + "\n") == b + "\n" + c + "\n";
    SplitAfterPiece(a, b + "\n" + c + "\n", '\n');
    assert a + ['\n'] + (b + "\n" + c + "\n") == a + "\n" + b + "\n" + c + "\n";
  }

  /** The text of a typical `status` reply, line by line. */
  lemma ExampleStatusText()
    ensures "volume: 50" + "\n" + "state: play" + "\n" + "OK" + "\n" == "volume: 50\nstate: play\nOK\n"
    ensures '\n' !in "volume: 50" && '\n' !in "state: play" && '\n' !in "OK"
  {
  }

  /** The pieces of a typical `status` reply: its final newline leaves an
      empty piece after `OK`. */
  lemma ExampleStatusLines()
    ensures Split("volume: 50\nstate: play\nOK\n", '\n') == ["volume: 50", "state: play", "OK", ""]
  {
    ExampleStatusText();
    SplitThreeLines("volume: 50", "state: play", "OK");
  }

  /** The pieces of `ExampleStatusLines`, written as entries. */
  lemma ExampleStatusEntries()
    ensures [EntryLine("volume", "50"), EntryLine("state", "play"), Terminator] + [""]
      == ["volume: 50", "state: play", "OK", ""]
  {
    assert EntryLine("volume", "50") == "volume: 50";
    assert EntryLine("state", "play") == "state: play";
  }

  /** A typical `status` reply, split and parsed as the `data` handler does. */
  lemma ExampleStatusReply()
    ensures Parse(Split("volume: 50\nstate: play\nOK\n", '\n')) == map["volume" := "50", "state" := "play"]
  {
    ExampleStatusLines();
    ExampleNamesValid();
    ParseTwoEntries("volume", "50", "state", "play", [""]);
    ExampleStatusEntries();
  }

  // ---------------------------------------------------------------------
  // Each request is answered at most once.
  // ---------------------------------------------------------------------

  /** How many times response `res` is answered in a list of effects. */
  function Deliveries(effects: seq<Effect>, res: ResponseId): nat {
    if effects == [] then 0
    else (if effects[0].Deliver? && effects[0].res == res then 1 else 0) + Deliveries(effects[1..], res)
  }

  /** How many times `res` is handed to the `/status` route. */
  function Requests(events: seq<Event>, res: ResponseId): nat {
    if events == [] then 0
    else (if events[0] == Get(res) then 1 else 0) + Requests(events[1..], res)
  }

  /** 1 when `res` is waiting in the slot. */
  function Pending(s: State, res: ResponseId): nat {
    if s.response == Some(res) then 1 else 0
  }

  lemma {:induction false} DeliveriesAppend(a: seq<Effect>, b: seq<Effect>, res: ResponseId)
    ensures Deliveries(a + b, res) == Deliveries(a, res) + Deliveries(b, res)
  {
    if a != [] {
      assert (a + b)[0] == a[0] && (a + b)[1..] == a[1..] + b;
      DeliveriesAppend(a[1..], b, res);
    } else {
      assert a + b == b;
    }
  }

  /** One event answers `res` only by emptying a slot that held it. */
  lemma NextAccounting(s: State, e: Event, res: ResponseId)
    ensures Deliveries(Next(s, e).1, res) + Pending(Next(s, e).0, res)
      <= (if e == Get(res) then 1 else 0) + Pending(s, res)
  {
    if e.Data? && s.clientState == 2 {
      var done := s.(clientState := 3, mpdSong := Parse(Split(e.data, '\n')));
      var sent := Respond(done, Ok(done.mpdStatus, done.mpdSong));
      DeliveriesAppend([Write(CloseCommand)], sent.1, res);
    }
  }

  /** Over any sequence of events, the answers given to `res` plus its
      presence in the slot never exceed the requests made with it plus its
      presence in the slot at the start. */
  lemma {:induction false} RunAccounting(s: State, events: seq<Event>, res: ResponseId)
    ensures Deliveries(Run(s, events).1, res) + Pending(Run(s, events).0, res)
      <= Requests(events, res) + Pending(s, res)
    decreases |events|
  {
    if events != [] {
      var first := Next(s, events[0]);
      NextAccounting(s, events[0], res);
      RunAccounting(first.0, events[1..], res);
      DeliveriesAppend(first.1, Run(first.0, events[1..]).1, res);
    }
  }

  /** Each request is answered at most once, and nobody is answered who did
      not ask. */
  lemma AtMostOnceDelivery(s: State, events: seq<Event>, res: ResponseId)
    requires s.response.None?
    ensures Deliveries(Run(s, events).1, res) <= Requests(events, res)
  {
    RunAccounting(s, events, res);
  }

  /** A second request made while the first is pending takes the slot: the
      first caller is never answered, whatever happens afterwards, unless it
      asks again. */
  lemma EarlierCallerOrphaned(s: State, first: ResponseId, second: ResponseId, later: seq<Event>)
    requires first != second && Requests(later, first) == 0
    ensures Deliveries(Run(s, [Get(first), Get(second)] + later).1, first) == 0
  {
    RunAppend(s, [Get(first), Get(second)], later);
    var mid := Run(s, [Get(first), Get(second)]);
    assert mid == (s.(response := Some(second)), [Connect, Connect]) by {
      assert [Get(first)] + [Get(second)] == [Get(first), Get(second)];
      RunAppend(s, [Get(first)], [Get(second)]);
      RunSingle(s, Get(first));
      RunSingle(s.(response := Some(first)), Get(second));
      assert [Connect] + [Connect] == [Connect, Connect];
    }
    RunAccounting(mid.0, later, first);
    DeliveriesAppend(mid.1, Run(mid.0, later).1, first);
  }
}
