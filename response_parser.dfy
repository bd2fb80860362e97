/** `parseResponse`: the lines of one reply of the music player daemon,
    turned into a record from attribute name to attribute value. */
module ResponseParser {
  import opened Wrappers

  /** The JavaScript object `parsed`, seen as a dictionary of strings. */
  type Record = map<string, string>

  /** The line that ends a successful reply. */
  const Terminator: string := "OK"

  /** What separates an attribute name from its value. */
  const Separator: string := ": "

  /** Assigning a string to the property `__proto__` of a plain JavaScript
      object goes to the prototype setter, which ignores non-objects: such an
      entry never shows up in `parsed`. */
  const ProtoKey: string := "__proto__"

  // ---------------------------------------------------------------------
  // The regular expression /^([a-z_-]+): (.*)$/i, spelled out.
  // ---------------------------------------------------------------------

  /** `[a-z_-]` under the `i` flag: an ASCII letter of either case, `_` or `-`. */
  predicate IsKeyChar(c: char) {
    'a' <= c <= 'z' || 'A' <= c <= 'Z' || c == '_' || c == '-'
  }

  /** `[a-z_-]+` */
  predicate IsKey(k: string) {
    |k| > 0 && forall i :: 0 <= i < |k| ==> IsKeyChar(k[i])
  }

  /** The characters JavaScript's `.` does not match. */
  predicate IsLineTerminator(c: char) {
    c == '\n' || c == '\r' || c == '\U{2028}' || c == '\U{2029}'
  }

  /** `(.*)$` without the `m` flag: the rest of the line, free of line terminators. */
  predicate IsValue(v: string) {
    forall i :: 0 <= i < |v| ==> !IsLineTerminator(v[i])
  }

  /** The line the daemon sends for attribute `k` with value `v`. */
  function EntryLine(k: string, v: string): string {
    k + Separator + v
  }

  /** Length of the longest prefix of `line` made of key characters. */
  function KeyRun(line: string): (n: nat)
    ensures n <= |line|
    ensures forall i :: 0 <= i < n ==> IsKeyChar(line[i])
    ensures n < |line| ==> !IsKeyChar(line[n])
  {
    if |line| == 0 || !IsKeyChar(line[0]) then 0 else 1 + KeyRun(line[1..])
  }

  /** `line.match(/^([a-z_-]+): (.*)$/i)`, giving `(matches[1], matches[2])`.
      A key cannot contain `:`, so the split is at the first `": "`. */
  function MatchLine(line: string): (r: Option<(string, string)>)
    ensures r.Some? ==> IsKey(r.value.0) && IsValue(r.value.1)
    ensures r.Some? ==> line == EntryLine(r.value.0, r.value.1)
  {
    var n := KeyRun(line);
    if 0 < n && n + 2 <= |line| && line[n..n + 2] == Separator && IsValue(line[n + 2..])
    then
      assert line == line[..n] + line[n..n + 2] + line[n + 2..];
      Some((line[..n], line[n + 2..]))
    else None
  }

  /** The regular expression matches every well-formed entry line, and splits
      it back into exactly its key and value. */
  lemma MatchLineComplete(k: string, v: string)
    requires IsKey(k) && IsValue(v)
    ensures MatchLine(EntryLine(k, v)) == Some((k, v))
  {
    var line := EntryLine(k, v);
    assert line[|k|] == ':';
    var n := KeyRun(line);
    assert forall i :: 0 <= i < |k| ==> line[i] == k[i];
    assert n == |k|;
    assert line[n..n + 2] == Separator;
    assert line[..n] == k;
    assert line[n + 2..] == v;
  }

  /** A line without a colon never matches. */
  lemma MatchLineNeedsColon(line: string)
    requires ':' !in line
    ensures MatchLine(line).None?
  {
  }

  /** A line that sets attribute `key`. */
  predicate SetsKey(line: string, key: string) {
    MatchLine(line).Some? && MatchLine(line).value.0 == key
  }

  // ---------------------------------------------------------------------
  // The reply block and the record built from it.
  // ---------------------------------------------------------------------

  /** The lines scanned before the loop breaks: everything before the first
      line that is exactly `OK`, or all lines when there is none. */
  function Block(lines: seq<string>): (b: seq<string>)
    ensures |b| <= |lines| && b == lines[..|b|]
    ensures Terminator !in b
    ensures |b| == |lines| || lines[|b|] == Terminator
  {
    if lines == [] || lines[0] == Terminator then []
    else [lines[0]] + Block(lines[1..])
  }

  /** `parsed[matches[1]] = matches[2]` on a JavaScript object. */
  function Store(acc: Record, key: string, value: string): Record {
    if key == ProtoKey then acc else acc[key := value]
  }

  /** One iteration of the loop body after the terminator test. */
  function Step(acc: Record, line: string): Record {
    match MatchLine(line)
    case None => acc
    case Some((k, v)) => Store(acc, k, v)
  }

  /** Every key of the record is a well-formed attribute name other than
      `__proto__`, and every value is free of line terminators. */
  predicate ValidRecord(m: Record) {
    forall k :: k in m ==> IsKey(k) && k != ProtoKey && IsValue(m[k])
  }

  /** The record built from a block of lines, scanned first to last. */
  function ParseBlock(ls: seq<string>): (r: Record)
    ensures ValidRecord(r)
  {
    if |ls| == 0 then map[] else Step(ParseBlock(ls[..|ls| - 1]), ls[|ls| - 1])
  }

  /** `parseResponse(lines)` */
  function Parse(lines: seq<string>): Record {
    ParseBlock(Block(lines))
  }

  /** `parseResponse` as written: a loop over the lines that breaks at the
      terminator and continues past lines the pattern rejects. */
  method ParseResponse(lines: seq<string>) returns (parsed: Record)
    ensures parsed == Parse(lines)
  {
    parsed := map[];
    for i := 0 to |lines|
      invariant Terminator !in lines[..i]
      invariant parsed == ParseBlock(lines[..i])
    {
      var line := lines[i];
      if line == Terminator {
        BlockIsPrefix(lines, i);
        return;
      }
      assert lines[..i + 1][..i] == lines[..i];
      var matches := MatchLine(line);
      if matches.None? {
        continue;
      }
      parsed := Store(parsed, matches.value.0, matches.value.1);
    }
    assert lines[..|lines|] == lines;
    BlockIsPrefix(lines, |lines|);
  }

  /** The block is the one prefix that is free of the terminator and followed
      by it or by nothing. */
  lemma BlockIsPrefix(lines: seq<string>, i: nat)
    requires i <= |lines|
    requires Terminator !in lines[..i]
    requires i == |lines| || lines[i] == Terminator
    ensures Block(lines) == lines[..i]
  {
  }

  // ---------------------------------------------------------------------
  // Properties of the parser.
  // ---------------------------------------------------------------------

  /** Blocks of concatenated lines, when the first part has no terminator. */
  lemma {:induction false} BlockAppend(pre: seq<string>, post: seq<string>)
    requires Terminator !in pre
    ensures Block(pre + post) == pre + Block(post)
  {
    if pre != [] {
      assert (pre + post)[0] == pre[0] && (pre + post)[1..] == pre[1..] + post;
      assert pre[0] in pre && Terminator !in pre[1..];
      BlockAppend(pre[1..], post);
      assert Block(pre + post) == [pre[0]] + (pre[1..] + Block(post));
      assert [pre[0]] + (pre[1..] + Block(post)) == ([pre[0]] + pre[1..]) + Block(post);
      assert [pre[0]] + pre[1..] == pre;
    } else {
      assert pre + post == post;
    }
  }

  /** Blocks of concatenated lines, when the first part has a terminator. */
  lemma {:induction false} BlockAppendTerminated(pre: seq<string>, post: seq<string>)
    requires Terminator in pre
    ensures Block(pre + post) == Block(pre)
  {
    if pre[0] != Terminator {
      assert (pre + post)[1..] == pre[1..] + post;
      BlockAppendTerminated(pre[1..], post);
    }
  }

  /** Nothing from the first `OK` line or from any line after it reaches the
      record, whatever those lines are. */
  lemma ParseStopsAtTerminator(pre: seq<string>, post: seq<string>)
    requires Terminator !in pre
    ensures Parse(pre + [Terminator] + post) == ParseBlock(pre)
  {
    assert pre + [Terminator] + post == pre + ([Terminator] + post);
    BlockAppend(pre, [Terminator] + post);
  }

  /** Only a line that is exactly `OK` ends the reply: any other line,
      such as `OK `, `ok` or `OK MPD 0.21.0`, is scanned past. */
  lemma ParseContinuesPastNonTerminator(line: string, post: seq<string>)
    requires line != Terminator
    ensures Parse([line] + post) == ParseBlock([line] + Block(post))
  {
    BlockAppend([line], post);
  }

  /** A rejected line may as well not be there. */
  lemma {:induction false} ParseBlockSkip(pre: seq<string>, line: string, post: seq<string>)
    requires MatchLine(line).None?
    ensures ParseBlock(pre + [line] + post) == ParseBlock(pre + post)
    decreases |post|
  {
    if post == [] {
      assert pre + [line] + post == pre + [line];
      assert (pre + [line])[..|pre|] == pre;
      assert pre + post == pre;
    } else {
      var init, last := post[..|post| - 1], post[|post| - 1];
      ParseBlockSkip(pre, line, init);
      var a, b := pre + [line] + post, pre + post;
      assert a[..|a| - 1] == pre + [line] + init && a[|a| - 1] == last;
      assert b[..|b| - 1] == pre + init && b[|b| - 1] == last;
      assert ParseBlock(a) == Step(ParseBlock(pre + [line] + init), last);
      assert ParseBlock(b) == Step(ParseBlock(pre + init), last);
    }
  }

  /** A line that neither terminates the reply nor matches the pattern is
      skipped, and scanning carries on with the next line. */
  lemma ParseSkipsUnmatched(pre: seq<string>, line: string, post: seq<string>)
    requires line != Terminator && MatchLine(line).None?
    ensures Parse(pre + [line] + post) == Parse(pre + post)
  {
    if Terminator in pre {
      assert pre + [line] + post == pre + ([line] + post);
      BlockAppendTerminated(pre, [line] + post);
      BlockAppendTerminated(pre, post);
    } else {
      assert pre + [line] + post == (pre + [line]) + post;
      BlockAppend(pre + [line], post);
      BlockAppend(pre, post);
      assert pre + [line] + Block(post) == (pre + [line]) + Block(post);
      ParseBlockSkip(pre, line, Block(post));
    }
  }

  /** The keys of a block's record are exactly the keys set by its lines,
      `__proto__` excepted. */
  lemma {:induction false} ParseBlockKeys(ls: seq<string>, key: string)
    ensures key in ParseBlock(ls) <==>
      key != ProtoKey && exists i :: 0 <= i < |ls| && SetsKey(ls[i], key)
  {
    if |ls| > 0 {
      var init := ls[..|ls| - 1];
      ParseBlockKeys(init, key);
      if key in ParseBlock(ls) && key !in ParseBlock(init) {
        assert SetsKey(ls[|ls| - 1], key);
      }
      if exists i :: 0 <= i < |ls| && SetsKey(ls[i], key) {
        var i :| 0 <= i < |ls| && SetsKey(ls[i], key);
        if i < |ls| - 1 {
          assert SetsKey(init[i], key);
        }
      }
    }
  }

  /** The value of a key is the one on the last line of the block that sets it. */
  lemma {:induction false} ParseBlockLastWins(ls: seq<string>, key: string, i: nat)
    requires i < |ls| && SetsKey(ls[i], key) && key != ProtoKey
    requires forall j :: i < j < |ls| ==> !SetsKey(ls[j], key)
    ensures key in ParseBlock(ls) && ParseBlock(ls)[key] == MatchLine(ls[i]).value.1
  {
    if i < |ls| - 1 {
      var init := ls[..|ls| - 1];
      assert forall j :: i < j < |init| ==> init[j] == ls[j];
      ParseBlockLastWins(init, key, i);
      assert !SetsKey(ls[|ls| - 1], key);
    }
  }

  /** Every key of `parseResponse(lines)` is set by some line before the first
      `OK`, and every such key other than `__proto__` is in the record. */
  lemma ParseKeys(lines: seq<string>, key: string)
    ensures key in Parse(lines) <==>
      key != ProtoKey && exists i :: 0 <= i < |Block(lines)| && SetsKey(lines[i], key)
  {
    var b := Block(lines);
    ParseBlockKeys(b, key);
    assert forall i :: 0 <= i < |b| ==> b[i] == lines[i];
  }

  /** For a repeated key the value of the last matching line before the
      first `OK` wins: it is exactly the text after that line's `": "`. */
  lemma ParseLastWins(lines: seq<string>, key: string, i: nat)
    requires i < |Block(lines)| && SetsKey(lines[i], key) && key != ProtoKey
    requires forall j :: i < j < |Block(lines)| ==> !SetsKey(lines[j], key)
    ensures key in Parse(lines)
    ensures Parse(lines)[key] == MatchLine(lines[i]).value.1
    ensures lines[i] == EntryLine(key, Parse(lines)[key])
  {
    var b := Block(lines);
    assert forall j :: 0 <= j < |b| ==> b[j] == lines[j];
    ParseBlockLastWins(b, key, i);
  }

  /** With no matching line before the first `OK` (empty input included)
      the record is empty, and only then. */
  lemma ParseEmpty(lines: seq<string>)
    ensures Parse(lines) == map[] <==>
      forall i :: 0 <= i < |Block(lines)| ==>
        MatchLine(lines[i]).None? || MatchLine(lines[i]).value.0 == ProtoKey
  {
    var b := Block(lines);
    assert forall i :: 0 <= i < |b| ==> b[i] == lines[i];
    if Parse(lines) != map[] {
      var k :| k in Parse(lines);
      ParseKeys(lines, k);
    } else {
      forall i | 0 <= i < |b| && MatchLine(lines[i]).Some?
        ensures MatchLine(lines[i]).value.0 == ProtoKey
      {
        var k := MatchLine(lines[i]).value.0;
        ParseKeys(lines, k);
      }
    }
  }

  // ---------------------------------------------------------------------
  // Writing a record back as a reply.
  // ---------------------------------------------------------------------

  /** Some key of a non-empty record. */
  ghost function PickKey(m: Record): (k: string)
    requires |m| > 0
    ensures k in m
  {
    var k :| k in m; k
  }

  /** The lines of a reply listing the record's entries, without the `OK`. */
  ghost function Render(m: Record): seq<string>
    decreases |m|
  {
    if |m| == 0 then []
    else
      var k := PickKey(m);
      assert |m - {k}| < |m| by {
        assert (m - {k}).Keys == m.Keys - {k};
      }
      Render(m - {k}) + [EntryLine(k, m[k])]
  }

  /** Parsing the rendering of a valid record gives the record back. */
  lemma {:induction false} ParseBlockRender(m: Record)
    requires ValidRecord(m)
    ensures ParseBlock(Render(m)) == m
    ensures Terminator !in Render(m)
    decreases |m|
  {
    if |m| > 0 {
      var k := PickKey(m);
      var rest := m - {k};
      assert rest.Keys == m.Keys - {k};
      ParseBlockRender(rest);
      var r := Render(m);
      assert r[..|r| - 1] == Render(rest);
      MatchLineComplete(k, m[k]);
      assert rest[k := m[k]] == m;
      assert |EntryLine(k, m[k])| >= 3;
    }
  }

  /** A record written back as a reply ending in `OK` parses to itself. */
  lemma ParseRenderRoundTrip(m: Record)
    requires ValidRecord(m)
    ensures Parse(Render(m) + [Terminator]) == m
  {
    ParseBlockRender(m);
    ParseStopsAtTerminator(Render(m), []);
    assert Render(m) + [Terminator] + [] == Render(m) + [Terminator];
  }

  /** Parsing is idempotent: a parsed reply, re-serialised and parsed again,
      gives the same record. */
  lemma ParseIdempotent(lines: seq<string>)
    ensures Parse(Render(Parse(lines)) + [Terminator]) == Parse(lines)
  {
    ParseRenderRoundTrip(Parse(lines));
  }

  /** Appending a well-formed entry line to a block stores that entry. */
  lemma ParseBlockEntry(ls: seq<string>, k: string, v: string)
    requires IsKey(k) && IsValue(v) && k != ProtoKey
    ensures ParseBlock(ls + [EntryLine(k, v)]) == ParseBlock(ls)[k := v]
  {
    MatchLineComplete(k, v);
    assert (ls + [EntryLine(k, v)])[..|ls|] == ls;
  }

  /** A reply made of one entry line and the terminator. */
  lemma ParseSingleEntry(k: string, v: string)
    requires IsKey(k) && IsValue(v) && k != ProtoKey
    ensures Parse([EntryLine(k, v), Terminator]) == map[k := v]
  {
    assert [EntryLine(k, v), Terminator] == [EntryLine(k, v)] + [Terminator] + [];
    ParseStopsAtTerminator([EntryLine(k, v)], []);
    assert [] + [EntryLine(k, v)] == [EntryLine(k, v)];
    ParseBlockEntry([], k, v);
  }

  /** A reply of two entry lines, the terminator and anything after it: the
      second line is stored after the first, so it wins on a shared key. */
  lemma ParseTwoEntries(k1: string, v1: string, k2: string, v2: string, post: seq<string>)
    requires IsKey(k1) && IsValue(v1) && k1 != ProtoKey
    requires IsKey(k2) && IsValue(v2) && k2 != ProtoKey
    ensures Parse([EntryLine(k1, v1), EntryLine(k2, v2), Terminator] + post) == map[k1 := v1][k2 := v2]
  {
    var l1, l2 := EntryLine(k1, v1), EntryLine(k2, v2);
    assert [l1, l2, Terminator] + post == [l1, l2] + [Terminator] + post;
    ParseStopsAtTerminator([l1, l2], post);
    ParseBlockEntry([], k1, v1);
    assert [] + [l1] == [l1];
    ParseBlockEntry([l1], k2, v2);
    assert [l1] + [l2] == [l1, l2];
  }

  // ---------------------------------------------------------------------
  // Worked examples. The facts about literal text each sit in a lemma of
  // their own, which keeps every proof small.
  // ---------------------------------------------------------------------

  /** The keys and values used in the examples are well formed. */
  lemma ExampleNamesValid()
    ensures IsKey("artist") && IsKey("title") && IsKey("volume") && IsKey("state")
    ensures "artist" != ProtoKey && "title" != ProtoKey && "volume" != ProtoKey && "state" != ProtoKey
    ensures IsValue("A") && IsValue("B") && IsValue("X") && IsValue("1") && IsValue("2")
    ensures IsValue("50") && IsValue("play")
  {
  }

  /** The lines of `ExampleTerminator`, written as entries. */
  lemma ExampleTerminatorLines()
    ensures [EntryLine("artist", "A"), EntryLine("title", "B"), Terminator] + ["ignored: C"]
      == ["artist: A", "title: B", "OK", "ignored: C"]
  {
    assert EntryLine("artist", "A") == "artist: A";
    assert EntryLine("title", "B") == "title: B";
  }

  /** Lines after the terminator are ignored. */
  lemma ExampleTerminator()
    ensures Parse(["artist: A", "title: B", "OK", "ignored: C"]) == map["artist" := "A", "title" := "B"]
  {
    ExampleNamesValid();
    ParseTwoEntries("artist", "A", "title", "B", ["ignored: C"]);
    ExampleTerminatorLines();
  }

  /** The lines of `ExampleDuplicate`, written as entries. */
  lemma ExampleDuplicateLines()
    ensures [EntryLine("volume", "1"), EntryLine("volume", "2"), Terminator] + []
      == ["volume: 1", "volume: 2", "OK"]
    ensures map["volume" := "1"]["volume" := "2"] == map["volume" := "2"]
  {
    assert EntryLine("volume", "1") == "volume: 1";
    assert EntryLine("volume", "2") == "volume: 2";
  }

  /** The last of two values for one key wins. */
  lemma ExampleDuplicate()
    ensures Parse(["volume: 1", "volume: 2", "OK"]) == map["volume" := "2"]
  {
    ExampleNamesValid();
    ParseTwoEntries("volume", "1", "volume", "2", []);
    ExampleDuplicateLines();
  }

  /** The lines of `ExampleGarbage` around the garbage line. */
  lemma ExampleGarbageLines()
    ensures ["garbage", "title: X", "OK"] == [] + ["garbage"] + [EntryLine("title", "X"), Terminator]
    ensures [] + [EntryLine("title", "X"), Terminator] == ["title: X", "OK"]
    ensures "garbage" != Terminator && ':' !in "garbage"
  {
    assert EntryLine("title", "X") == "title: X";
  }

  /** A garbage line does not stop the scan. */
  lemma ExampleGarbage()
    ensures Parse(["garbage", "title: X", "OK"]) == map["title" := "X"]
  {
    ExampleGarbageLines();
    ExampleNamesValid();
    MatchLineNeedsColon("garbage");
    ParseSkipsUnmatched([], "garbage", [EntryLine("title", "X"), Terminator]);
    ParseSingleEntry("title", "X");
  }
}
