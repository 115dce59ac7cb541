/**
 * The event-stream wire format (text/event-stream, WHATWG HTML Living Standard,
 * sections 9.2.5 and 9.2.6): the frames written by a subscriber's write pump, the
 * line reader of the Go client, and the standard's own parser as a browser runs it.
 *
 * A char stands for one byte of the stream; LF and CR never occur inside a
 * multi-byte UTF-8 sequence, so splitting on them is the same on bytes.
 */
module EventStream {
  import opened Prelude

  const LF: char := '\n'
  const CR: char := '\r'

  // ---------------------------------------------------------------------------
  // Splitting text into lines
  // ---------------------------------------------------------------------------

  /** The pieces of a text one character longer at the front. */
  function Push(c: char, lines: seq<string>): (longer: seq<string>)
    requires lines != []
    ensures longer != []
  {
    if c == LF then [""] + lines else [[c] + lines[0]] + lines[1..]
  }

  /** strings.Split(s, "\n"): the pieces between line feeds, at least one. */
  function Split(s: string): (lines: seq<string>)
    ensures lines != []
  {
    if s == "" then [""] else Push(s[0], Split(s[1..]))
  }

  /** The lines a reader sees complete: everything before the last line feed. */
  function Lines(stream: string): seq<string>
  {
    var pieces := Split(stream);
    pieces[..|pieces| - 1]
  }

  lemma {:induction false} SplitLine(line: string, rest: string)
    requires LF !in line
    ensures Split(line + [LF] + rest) == [line] + Split(rest)
  {
    if line == "" {
      assert ([LF] + rest)[1..] == rest;
      assert line + [LF] + rest == [LF] + rest;
    } else {
      var s := line + [LF] + rest;
      assert s[1..] == line[1..] + [LF] + rest;
      SplitLine(line[1..], rest);
      assert [line[0]] + line[1..] == line;
    }
  }

  lemma LinesCons(line: string, rest: string)
    requires LF !in line
    ensures Lines(line + [LF] + rest) == [line] + Lines(rest)
  {
    SplitLine(line, rest);
  }

  lemma {:induction false} SplitNoLF(line: string)
    requires LF !in line
    ensures Split(line) == [line]
  {
    if line != "" {
      SplitNoLF(line[1..]);
      assert [line[0]] + line[1..] == line;
    }
  }

  lemma {:induction false} SplitPiecesHaveNoLF(s: string)
    ensures forall l <- Split(s) :: LF !in l
  {
    if s != "" {
      SplitPiecesHaveNoLF(s[1..]);
    }
  }

  /** Two lists of pieces whose touching ends belong to one line. */
  function Glue(a: seq<string>, b: seq<string>): seq<string>
    requires a != [] && b != []
  {
    a[..|a| - 1] + [a[|a| - 1] + b[0]] + b[1..]
  }

  lemma GlueAfterPush(c: char, a: seq<string>, b: seq<string>)
    requires a != [] && b != []
    ensures Glue(Push(c, a), b) == Push(c, Glue(a, b))
  {
    if c != LF && |a| == 1 {
      assert [c] + a[0] + b[0] == [c] + (a[0] + b[0]);
    }
  }

  lemma {:induction false} SplitAppend(a: string, b: string)
    ensures Split(a + b) == Glue(Split(a), Split(b))
  {
    if a == "" {
      assert a + b == b;
      assert "" + Split(b)[0] == Split(b)[0];
    } else {
      assert (a + b)[1..] == a[1..] + b;
      SplitAppend(a[1..], b);
      GlueAfterPush(a[0], Split(a[1..]), Split(b));
    }
  }

  // ---------------------------------------------------------------------------
  // The writer
  // ---------------------------------------------------------------------------

  function Field(name: string, value: string): string
  {
    name + ": " + value + [LF]
  }

  function DataFields(lines: seq<string>): string
  {
    if lines == [] then "" else Field("data", lines[0]) + DataFields(lines[1..])
  }

  lemma DataFieldsCons(lines: seq<string>, rest: string)
    requires lines != []
    ensures DataFields(lines) + rest == Field("data", lines[0]) + (DataFields(lines[1..]) + rest)
  {
  }

  lemma {:induction false} DataFieldsAppend(a: seq<string>, b: seq<string>)
    ensures DataFields(a + b) == DataFields(a) + DataFields(b)
  {
    if a == [] {
      assert a + b == b;
    } else {
      assert (a + b)[1..] == a[1..] + b;
      DataFieldsAppend(a[1..], b);
    }
  }

  /** One event as the write pump frames it for a subscriber that wants HTML. */
  function Frame(kind: string, payload: string): string
  {
    Field("event", kind) + DataFields(Split(payload)) + [LF]
  }

  lemma FieldText(name: string, value: string)
    ensures name == "data" ==> Field(name, value) == "data: " + value + [LF]
    ensures name == "event" ==> Field(name, value) == "event: " + value + [LF]
  {
    assert "data" + ": " == "data: ";
    assert "event" + ": " == "event: ";
  }

  lemma EventField()
    ensures "event: message\n" == Field("event", "message")
  {
    FieldText("event", "message");
  }

  lemma NoFields(lines: seq<string>)
    ensures DataFields(lines[..0]) == ""
  {
  }

  lemma OneMoreField(lines: seq<string>, i: nat)
    requires i < |lines|
    ensures DataFields(lines[..i + 1]) == DataFields(lines[..i]) + ("data: " + lines[i] + [LF])
  {
    FieldText("data", lines[i]);
    assert lines[..i + 1] == lines[..i] + [lines[i]];
    DataFieldsAppend(lines[..i], [lines[i]]);
  }

  /** One event as the write pump frames it for a JSON subscriber: never split. */
  function JsonFrame(kind: string, payload: string): string
  {
    ("event: " + kind + [LF]) + ("data: " + payload + [LF, LF])
  }

  lemma JsonFrameIsFrame(kind: string, payload: string)
    requires LF !in payload
    ensures JsonFrame(kind, payload) == Frame(kind, payload)
  {
    SplitNoLF(payload);
    FieldText("event", kind);
    FieldText("data", payload);
    assert DataFields([payload]) == Field("data", payload);
    assert "data: " + payload + [LF, LF] == ("data: " + payload + [LF]) + [LF];
  }

  datatype Packet = Packet(kind: string, payload: string)

  /** The bytes after writing the packets one after another. */
  function WriteAll(packets: seq<Packet>): string
  {
    if packets == [] then ""
    else Frame(packets[0].kind, packets[0].payload) + WriteAll(packets[1..])
  }

  lemma {:induction false} WriteAllAppend(a: seq<Packet>, b: seq<Packet>)
    ensures WriteAll(a + b) == WriteAll(a) + WriteAll(b)
  {
    if a == [] {
      assert a + b == b;
    } else {
      assert (a + b)[1..] == a[1..] + b;
      WriteAllAppend(a[1..], b);
    }
  }

  /** The response body of one stream, written by its pump. */
  class ResponseBody {
    var bytes: string

    constructor ()
      ensures bytes == ""
    {
      bytes := "";
    }

    method Write(chunk: string)
      modifies this
      ensures bytes == old(bytes) + chunk
    {
      bytes := bytes + chunk;
    }

    /** The HTML branch of the pump: one data field per line of the fragment. */
    method WriteHtml(fragment: string)
      modifies this
      ensures bytes == old(bytes) + Frame("message", fragment)
    {
      hide Split, DataFields, Field;
      Write("event: message\n");
      EventField();
      var lines := Split(fragment);
      NoFields(lines);
      for i := 0 to |lines|
        invariant bytes == old(bytes) + Field("event", "message") + DataFields(lines[..i])
      {
        Write("data: " + lines[i] + [LF]);
        OneMoreField(lines, i);
      }
      Write([LF]);
      assert lines[..|lines|] == lines;
    }

    /** The JSON branch of the pump; json.Marshal never emits a line feed. */
    method WriteJson(isEvent: bool, json: string)
      requires LF !in json
      modifies this
      ensures bytes == old(bytes) + Frame(if isEvent then "event" else "message", json)
    {
      var kind := "message";
      if isEvent {
        kind := "event";
      }
      Write("event: " + kind + [LF]);
      Write("data: " + json + [LF, LF]);
      JsonFrameIsFrame(kind, json);
    }
  }

  // ---------------------------------------------------------------------------
  // The Go client's reader
  // ---------------------------------------------------------------------------

  /** strings.TrimRight(s, "\r\n"). */
  function TrimRight(s: string): string
  {
    if s != "" && (s[|s| - 1] == CR || s[|s| - 1] == LF) then TrimRight(s[..|s| - 1]) else s
  }

  predicate HasPrefix(s: string, prefix: string) {
    prefix <= s
  }

  /** A field value without the one leading space the standard allows. */
  function StripSpace(value: string): string
  {
    if value != "" && value[0] == ' ' then value[1..] else value
  }

  /** The message sent to the channel while reading these lines with `buf` pending. */
  function ReadLines(lines: seq<string>, buf: string): (messages: seq<string>)
  {
    if lines == [] then []
    else
      var line := TrimRight(lines[0]);
      Completed(buf, line) + ReadLines(lines[1..], NextBuffer(buf, line))
  }

  /** What the client delivers for a stream that ends after these bytes. */
  function Read(stream: string): seq<string>
  {
    ReadLines(Lines(stream), "")
  }

  lemma {:induction false} TrimRightLine(line: string)
    ensures TrimRight(line + [LF]) == TrimRight(line)
  {
    assert (line + [LF])[..|line|] == line;
  }

  /** The message a line completes, if it is the blank line that ends an event. */
  function Completed(buf: string, line: string): seq<string>
  {
    if line == "" && buf != "" then [buf] else []
  }

  /** The data buffer after a line. */
  function NextBuffer(buf: string, line: string): string
  {
    if line == "" then ""
    else if HasPrefix(line, "data:") then buf + StripSpace(line[5..]) + [LF]
    else buf
  }

  lemma ReadOneLine(messages: seq<string>, body: string, rest: string, buf: string)
    requires LF !in body
    ensures messages + ReadLines(Lines(body + [LF] + rest), buf)
         == messages + Completed(buf, TrimRight(body + [LF]))
          + ReadLines(Lines(rest), NextBuffer(buf, TrimRight(body + [LF])))
  {
    LinesCons(body, rest);
    TrimRightLine(body);
  }

  /** The end of the line that starts at `pos`, or the end of the stream. */
  method FindLF(stream: string, pos: nat) returns (end: nat)
    requires pos <= |stream|
    ensures pos <= end <= |stream|
    ensures LF !in stream[pos..end]
    ensures end < |stream| ==> stream[end] == LF
  {
    end := pos;
    while end < |stream| && stream[end] != LF
      invariant pos <= end <= |stream|
      invariant LF !in stream[pos..end]
    {
      assert stream[pos..end + 1] == stream[pos..end] + [stream[end]];
      end := end + 1;
    }
  }

  /** What is still to be delivered from a position on, with `buf` pending. */
  function ReadFrom(stream: string, pos: nat, buf: string): seq<string>
    requires pos <= |stream|
  {
    ReadLines(Lines(stream[pos..]), buf)
  }

  lemma ReadFromStart(stream: string)
    ensures Read(stream) == [] + ReadFrom(stream, 0, "")
  {
    assert stream[0..] == stream;
  }

  lemma NextLine(stream: string, pos: nat, end: nat, messages: seq<string>, buf: string)
    requires pos <= end < |stream| && LF !in stream[pos..end] && stream[end] == LF
    ensures var line := TrimRight(stream[pos..end + 1]);
            messages + ReadFrom(stream, pos, buf)
              == messages + Completed(buf, line) + ReadFrom(stream, end + 1, NextBuffer(buf, line))
  {
    assert stream[pos..] == stream[pos..end] + [LF] + stream[end + 1..];
    assert stream[pos..end + 1] == stream[pos..end] + [LF];
    hide ReadLines, Lines, TrimRight, Completed, NextBuffer;
    ReadOneLine(messages, stream[pos..end], stream[end + 1..], buf);
  }

  lemma NoLineLeft(stream: string, pos: nat, messages: seq<string>, buf: string)
    requires pos <= |stream| && LF !in stream[pos..|stream|]
    ensures messages + ReadFrom(stream, pos, buf) == messages
  {
    assert stream[pos..] == stream[pos..|stream|];
    SplitNoLF(stream[pos..]);
  }

  /** The reader loop of the client, over the bytes of a finished stream. */
  method ReadPump(stream: string) returns (messages: seq<string>)
    ensures messages == Read(stream)
  {
    hide *;
    messages := [];
    var dataBuf := "";
    var pos := 0;
    ReadFromStart(stream);
    while true
      invariant 0 <= pos <= |stream|
      invariant Read(stream) == messages + ReadFrom(stream, pos, dataBuf)
      decreases |stream| - pos
    {
      var end := FindLF(stream, pos);
      if end == |stream| {
        NoLineLeft(stream, pos, messages, dataBuf);
        return;
      }
      NextLine(stream, pos, end, messages, dataBuf);
      var line := TrimRight(stream[pos..end + 1]);
      messages, dataBuf := HandleLine(messages, dataBuf, line);
      pos := end + 1;
    }
  }

  /** The body of the reader loop: one line against the data buffer. */
  method HandleLine(delivered: seq<string>, buf: string, line: string)
    returns (messages: seq<string>, dataBuf: string)
    ensures messages == delivered + Completed(buf, line)
    ensures dataBuf == NextBuffer(buf, line)
  {
    messages, dataBuf := delivered, buf;
    if line == "" {
      if |dataBuf| > 0 {
        messages := messages + [dataBuf];
      }
      dataBuf := "";
    } else if HasPrefix(line, "data:") {
      var data := line[5..];
      if |data| > 0 && data[0] == ' ' {
        data := data[1..];
      }
      dataBuf := dataBuf + data;
      dataBuf := dataBuf + [LF];
    }
  }

  // Reading what was written ----------------------------------------------------

  function WithLF(lines: seq<string>): string
  {
    if lines == [] then "" else lines[0] + [LF] + WithLF(lines[1..])
  }

  lemma WithLFCons(before: string, line: string, lines: seq<string>)
    ensures before + line + [LF] + WithLF(lines) == before + WithLF([line] + lines)
  {
    assert ([line] + lines)[1..] == lines;
  }

  lemma TrimmedCons(lines: seq<string>)
    requires lines != []
    ensures Trimmed(lines) == [TrimRight(lines[0])] + Trimmed(lines[1..])
  {
  }

  function Trimmed(lines: seq<string>): seq<string>
  {
    seq(|lines|, i requires 0 <= i < |lines| => TrimRight(lines[i]))
  }

  /** What arrives for one payload: its lines, each cut before trailing CRs. */
  function Received(payload: string): string
  {
    WithLF(Trimmed(Split(payload)))
  }

  /** Trimming changes nothing exactly when no line of the payload ends in CR. */
  predicate NoLineEndsInCR(payload: string)
  {
    forall l <- Split(payload) :: l == "" || l[|l| - 1] != CR
  }

  lemma {:induction false} WithLFSplit(s: string)
    ensures WithLF(Split(s)) == s + [LF]
  {
    if s != "" {
      WithLFSplit(s[1..]);
      var rest := Split(s[1..]);
      if s[0] == LF {
        assert ([""] + rest)[1..] == rest;
        assert s + [LF] == "" + [LF] + (s[1..] + [LF]);
      } else {
        assert ([[s[0]] + rest[0]] + rest[1..])[1..] == rest[1..];
        calc {
          WithLF(Split(s));
          [s[0]] + rest[0] + [LF] + WithLF(rest[1..]);
          [s[0]] + (rest[0] + [LF] + WithLF(rest[1..]));
          [s[0]] + (s[1..] + [LF]);
          s + [LF];
        }
      }
    }
  }

  lemma {:induction false} TrimRightShrinks(s: string)
    ensures TrimRight(s) <= s
    ensures TrimRight(s) == s <==> s == "" || (s[|s| - 1] != CR && s[|s| - 1] != LF)
  {
    if s != "" && (s[|s| - 1] == CR || s[|s| - 1] == LF) {
      TrimRightShrinks(s[..|s| - 1]);
    }
  }

  lemma {:induction false} TrimRightDataLine(line: string)
    ensures TrimRight("data: " + line) == "data: " + TrimRight(line)
  {
    if line == "" {
      assert "data: " + line == "data: ";
    } else {
      assert ("data: " + line)[..|"data: " + line| - 1] == "data: " + line[..|line| - 1];
      TrimRightDataLine(line[..|line| - 1]);
    }
  }

  lemma ReadDataField(value: string, rest: string, buf: string)
    requires LF !in value
    ensures ReadLines(Lines(Field("data", value) + rest), buf)
         == ReadLines(Lines(rest), buf + TrimRight(value) + [LF])
  {
    var line, field := "data: " + value, Field("data", value) + rest;
    assert field == line + [LF] + rest by { FieldText("data", value); }
    DataLineBuffer(buf, value);
    hide *;
    LinesCons(line, rest);
    OneLine(line, Lines(rest), buf);
    var more := ReadLines(Lines(rest), NextBuffer(buf, TrimRight(line)));
    assert [] + more == more;
  }

  lemma OneLine(line: string, lines: seq<string>, buf: string)
    ensures ReadLines([line] + lines, buf) ==
      Completed(buf, TrimRight(line)) + ReadLines(lines, NextBuffer(buf, TrimRight(line)))
  {
    assert ([line] + lines)[1..] == lines;
  }

  lemma DataLineBuffer(buf: string, value: string)
    ensures Completed(buf, TrimRight("data: " + value)) == []
    ensures NextBuffer(buf, TrimRight("data: " + value)) == buf + TrimRight(value) + [LF]
  {
    TrimRightDataLine(value);
    var data := TrimRight(value);
    hide TrimRight;
    assert ("data: " + data)[5..] == " " + data;
    assert (" " + data)[1..] == data;
  }

  /** Reading a block of data fields appends their trimmed lines to the buffer. */
  lemma {:induction false} ReadDataFields(lines: seq<string>, rest: string, buf: string)
    requires forall l <- lines :: LF !in l
    ensures ReadLines(Lines(DataFields(lines) + rest), buf)
         == ReadLines(Lines(rest), buf + WithLF(Trimmed(lines)))
  {
    if lines == [] {
      assert DataFields(lines) + rest == rest;
      assert buf + WithLF(Trimmed(lines)) == buf;
    } else {
      var longer := buf + TrimRight(lines[0]) + [LF];
      DataFieldsCons(lines, rest);
      ReadDataField(lines[0], DataFields(lines[1..]) + rest, buf);
      ReadDataFields(lines[1..], rest, longer);
      TrimmedCons(lines);
      WithLFCons(buf, TrimRight(lines[0]), Trimmed(lines[1..]));
    }
  }

  predicate ValidKind(kind: string) {
    kind != "" && kind[0] != ' ' && LF !in kind && CR !in kind
  }

  lemma EventLine(kind: string, rest: string)
    requires ValidKind(kind)
    ensures ReadLines(Lines(Field("event", kind) + rest), "") == ReadLines(Lines(rest), "")
  {
    var line := "event: " + kind;
    FieldText("event", kind);
    LinesCons(line, rest);
    assert line[|line| - 1] == kind[|kind| - 1];
    assert line[0] == 'e' && "data:"[0] == 'd';
  }

  lemma FrameAndRest(kind: string, payload: string, rest: string)
    ensures Frame(kind, payload) + rest == Field("event", kind) + (DataFields(Split(payload)) + ([LF] + rest))
  {
  }

  lemma ReadFrame(kind: string, payload: string, rest: string)
    requires ValidKind(kind)
    ensures ReadLines(Lines(Frame(kind, payload) + rest), "") == [Received(payload)] + ReadLines(Lines(rest), "")
  {
    var pieces := Split(payload);
    FrameAndRest(kind, payload, rest);
    EventLine(kind, DataFields(pieces) + ([LF] + rest));
    SplitPiecesHaveNoLF(payload);
    ReadDataFields(pieces, [LF] + rest, "");
    assert "" + WithLF(Trimmed(pieces)) == Received(payload);
    assert [LF] + rest == "" + [LF] + rest;
    LinesCons("", rest);
    assert Received(payload) != "";
  }

  function AllReceived(packets: seq<Packet>): seq<string>
  {
    seq(|packets|, i requires 0 <= i < |packets| => Received(packets[i].payload))
  }

  lemma FirstPacket(packets: seq<Packet>)
    requires packets != []
    ensures WriteAll(packets) == Frame(packets[0].kind, packets[0].payload) + WriteAll(packets[1..])
    ensures AllReceived(packets) == [Received(packets[0].payload)] + AllReceived(packets[1..])
  {
    hide Received, Frame;
  }

  lemma ReadIs(stream: string)
    ensures Read(stream) == ReadLines(Lines(stream), "")
  {
  }

  /** The client's view of any list of packets: one message each, in order. */
  lemma {:induction false} ReadWritten(packets: seq<Packet>)
    requires forall p <- packets :: ValidKind(p.kind)
    ensures Read(WriteAll(packets)) == AllReceived(packets)
  {
    if packets != [] {
      var p, more := packets[0], WriteAll(packets[1..]);
      hide *;
      assert p in packets && forall q <- packets[1..] :: q in packets;
      FirstPacket(packets);
      ReadIs(more);
      ReadIs(WriteAll(packets));
      ReadFrame(p.kind, p.payload, more);
      ReadWritten(packets[1..]);
    } else {
      assert Read("") == [];
    }
  }

  lemma SameHead(a: string, b: string, x: string, y: string)
    requires |a| == |b|
    ensures a + x == b + y <==> a == b && x == y
  {
    if a + x == b + y {
      assert a == (a + x)[..|a|] && b == (b + y)[..|b|];
      assert x == (a + x)[|a|..] && y == (b + y)[|b|..];
    }
  }

  lemma {:induction false} TrimmedLength(lines: seq<string>)
    requires forall l <- lines :: LF !in l
    ensures |WithLF(Trimmed(lines))| <= |WithLF(lines)|
    ensures WithLF(Trimmed(lines)) == WithLF(lines) <==> forall l <- lines :: l == "" || l[|l| - 1] != CR
  {
    if lines != [] {
      var l := lines[0];
      assert Trimmed(lines)[1..] == Trimmed(lines[1..]);
      TrimmedLength(lines[1..]);
      TrimRightShrinks(l);
      assert lines == [l] + lines[1..];
      if TrimRight(l) == l {
        SameHead(l + [LF], l + [LF], WithLF(Trimmed(lines[1..])), WithLF(lines[1..]));
      } else {
        assert l[|l| - 1] == CR by {
          assert l[|l| - 1] in l;
        }
        assert l in lines;
      }
    }
  }

  lemma ReceivedExact(payload: string)
    ensures Received(payload) == payload + [LF] <==> NoLineEndsInCR(payload)
  {
    SplitPiecesHaveNoLF(payload);
    TrimmedLength(Split(payload));
    WithLFSplit(payload);
  }

  /**
   * Round trip, exactly: the client gets every message back, in order, each with one
   * LF, if and only if no line of any message ends in CR. Blank lines, leading spaces
   * and lines that look like fields are all harmless.
   */
  lemma RoundTrip(packets: seq<Packet>)
    requires forall p <- packets :: ValidKind(p.kind)
    ensures (|Read(WriteAll(packets))| == |packets|
             && forall i | 0 <= i < |packets| :: Read(WriteAll(packets))[i] == packets[i].payload + [LF])
       <==> forall p <- packets :: NoLineEndsInCR(p.payload)
  {
    ReadWritten(packets);
    forall i | 0 <= i < |packets|
      ensures Read(WriteAll(packets))[i] == packets[i].payload + [LF] <==> NoLineEndsInCR(packets[i].payload)
    {
      ReceivedExact(packets[i].payload);
    }
  }

  /** A line that ends in CR comes back without it. */
  lemma TrailingCRIsLost(line: string)
    requires LF !in line && CR !in line
    ensures Received(line + [CR]) == line + [LF]
  {
    var sent := line + [CR];
    SplitNoLF(sent);
    assert sent[..|line|] == line;
    TrimRightShrinks(line);
    assert Trimmed([sent]) == [line];
    assert WithLF([line]) == line + [LF] + WithLF([]);
  }

  // Truncated streams -----------------------------------------------------------

  function BufferAfter(lines: seq<string>, buf: string): string
  {
    if lines == [] then buf
    else
      var line := TrimRight(lines[0]);
      BufferAfter(lines[1..], NextBuffer(buf, line))
  }

  lemma {:induction false} ReadLinesAppend(a: seq<string>, b: seq<string>, buf: string)
    ensures ReadLines(a + b, buf) == ReadLines(a, buf) + ReadLines(b, BufferAfter(a, buf))
  {
    if a == [] {
      assert a + b == b;
    } else {
      assert (a + b)[1..] == a[1..] + b;
      var line := TrimRight(a[0]);
      ReadLinesAppend(a[1..], b, NextBuffer(buf, line));
    }
  }

  /** Cutting a stream anywhere loses only a tail of the messages, never alters one. */
  lemma ReadPrefix(received: string, unseen: string)
    ensures Read(received) <= Read(received + unseen)
  {
    SplitAppend(received, unseen);
    var more := Lines(received + unseen)[|Lines(received)|..];
    assert Lines(received + unseen) == Lines(received) + more;
    ReadLinesAppend(Lines(received), more, "");
  }

  // ---------------------------------------------------------------------------
  // The standard's parser (sections 9.2.5 and 9.2.6), as an EventSource runs it
  // ---------------------------------------------------------------------------

  /** Lines end at CRLF, LF or a lone CR; an unfinished last line is discarded. */
  function StandardLines(s: string, line: string): seq<string>
  {
    if s == "" then []
    else if s[0] == CR then [line] + StandardLines(if |s| > 1 && s[1] == LF then s[2..] else s[1..], "")
    else if s[0] == LF then [line] + StandardLines(s[1..], "")
    else StandardLines(s[1..], line + [s[0]])
  }

  /** The index of the first colon, or the length of the line when it has none. */
  function ColonAt(line: string): (i: nat)
    ensures i <= |line|
  {
    if line == "" || line[0] == ':' then 0 else 1 + ColonAt(line[1..])
  }

  lemma {:induction false} FirstColon(field: string, value: string)
    requires ':' !in field
    ensures ColonAt(field + ":" + value) == |field|
    ensures (field + ":" + value)[..|field|] == field
  {
    if field != "" {
      assert (field + ":" + value)[1..] == field[1..] + ":" + value;
      FirstColon(field[1..], value);
    }
  }

  function FieldOf(line: string): string
  {
    line[..ColonAt(line)]
  }

  function ValueOf(line: string): string
  {
    if ColonAt(line) < |line| then StripSpace(line[ColonAt(line) + 1..]) else ""
  }

  /** The event a blank line dispatches. */
  function Dispatched(line: string, kind: string, data: string): seq<Packet>
  {
    if line != "" || data == "" then []
    else [Packet(if kind == "" then "message" else kind, data[..|data| - 1])]
  }

  /** The event-type buffer after a line. */
  function KindAfter(line: string, kind: string): string
  {
    if line == "" then "" else if FieldOf(line) == "event" then ValueOf(line) else kind
  }

  /** The data buffer after a line. */
  function DataAfter(line: string, data: string): string
  {
    if line == "" then "" else if FieldOf(line) == "data" then data + ValueOf(line) + [LF] else data
  }

  /**
   * Interpret lines one by one with the given event-type and data buffers. The fields
   * id and retry dispatch nothing and are not told apart from unknown ones here.
   */
  function Dispatch(lines: seq<string>, kind: string, data: string): seq<Packet>
  {
    if lines == [] then []
    else Dispatched(lines[0], kind, data) + Dispatch(lines[1..], KindAfter(lines[0], kind), DataAfter(lines[0], data))
  }

  function StandardRead(stream: string): seq<Packet>
  {
    Dispatch(StandardLines(stream, ""), "", "")
  }

  lemma {:induction false} StandardLine(line: string, rest: string, before: string)
    requires LF !in line && CR !in line
    ensures StandardLines(line + [LF] + rest, before) == [before + line] + StandardLines(rest, "")
  {
    var s := line + [LF] + rest;
    if line == "" {
      assert s[1..] == rest;
      assert before + line == before;
    } else {
      assert s[1..] == line[1..] + [LF] + rest;
      StandardLine(line[1..], rest, before + [line[0]]);
      assert before + [line[0]] + line[1..] == before + line;
    }
  }

  lemma FieldParts(field: string, value: string)
    requires field == "event" || field == "data"
    ensures var line := field + ": " + value; line != "" && FieldOf(line) == field && ValueOf(line) == value
  {
    var line := field + ": " + value;
    assert line == field + ":" + (" " + value);
    FirstColon(field, " " + value);
    assert line[|field| + 1..] == " " + value;
    assert (" " + value)[1..] == value;
  }

  lemma DispatchCons(line: string, lines: seq<string>, kind: string, data: string)
    ensures Dispatch([line] + lines, kind, data)
         == Dispatched(line, kind, data) + Dispatch(lines, KindAfter(line, kind), DataAfter(line, data))
  {
    assert ([line] + lines)[1..] == lines;
  }

  lemma StandardField(field: string, value: string, rest: string, kind: string, data: string)
    requires field == "event" || field == "data"
    requires LF !in value && CR !in value
    ensures Dispatch(StandardLines(Field(field, value) + rest, ""), kind, data)
         == Dispatch(StandardLines(rest, ""),
                     if field == "event" then value else kind,
                     if field == "data" then data + value + [LF] else data)
  {
    var line := field + ": " + value;
    assert Field(field, value) + rest == line + [LF] + rest && "" + line == line;
    FieldParts(field, value);
    hide Field, FieldOf, ValueOf, Dispatch, StandardLines;
    StandardLine(line, rest, "");
    DispatchCons(line, StandardLines(rest, ""), kind, data);
    assert Dispatched(line, kind, data) == [];
  }

  lemma {:induction false} StandardDataFields(lines: seq<string>, rest: string, kind: string, data: string)
    requires forall l <- lines :: LF !in l && CR !in l
    ensures Dispatch(StandardLines(DataFields(lines) + rest, ""), kind, data)
         == Dispatch(StandardLines(rest, ""), kind, data + WithLF(lines))
  {
    if lines == [] {
      assert DataFields(lines) + rest == rest;
      assert data + WithLF(lines) == data;
    } else {
      var longer := data + lines[0] + [LF];
      DataFieldsCons(lines, rest);
      assert lines[0] in lines;
      StandardField("data", lines[0], DataFields(lines[1..]) + rest, kind, data);
      StandardDataFields(lines[1..], rest, kind, longer);
      assert lines == [lines[0]] + lines[1..];
      WithLFCons(data, lines[0], lines[1..]);
    }
  }

  lemma {:induction false} SplitPiecesHaveNoCR(s: string)
    requires CR !in s
    ensures forall l <- Split(s) :: CR !in l
  {
    if s != "" {
      SplitPiecesHaveNoCR(s[1..]);
    }
  }

  lemma StandardBlank(kind: string, payload: string, rest: string)
    requires kind != ""
    ensures Dispatch(StandardLines([LF] + rest, ""), kind, payload + [LF]) == [Packet(kind, payload)] + StandardRead(rest)
  {
    assert [LF] + rest == "" + [LF] + rest;
    StandardLine("", rest, "");
    assert (payload + [LF])[..|payload|] == payload;
  }

  lemma StandardFrame(kind: string, payload: string, rest: string)
    requires ValidKind(kind) && CR !in payload
    ensures StandardRead(Frame(kind, payload) + rest) == [Packet(kind, payload)] + StandardRead(rest)
  {
    hide Dispatch, StandardLines, Frame, DataFields, Field, WithLF, Split;
    var pieces := Split(payload);
    FrameAndRest(kind, payload, rest);
    StandardField("event", kind, DataFields(pieces) + ([LF] + rest), "", "");
    SplitPiecesHaveNoLF(payload);
    SplitPiecesHaveNoCR(payload);
    StandardDataFields(pieces, [LF] + rest, kind, "");
    WithLFSplit(payload);
    assert "" + WithLF(pieces) == payload + [LF];
    StandardBlank(kind, payload, rest);
  }

  lemma {:induction false} DispatchedDataHasNoCR(lines: seq<string>, kind: string, data: string)
    requires forall l <- lines :: CR !in l
    requires CR !in data
    ensures forall p <- Dispatch(lines, kind, data) :: CR !in p.payload
  {
    if lines != [] {
      assert lines[0] in lines;
      DispatchedDataHasNoCR(lines[1..], KindAfter(lines[0], kind), DataAfter(lines[0], data));
    }
  }

  lemma {:induction false} StandardLinesHaveNoCR(s: string, line: string)
    requires CR !in line
    ensures forall l <- StandardLines(s, line) :: CR !in l
    decreases |s|
  {
    if s != "" {
      if s[0] == CR {
        StandardLinesHaveNoCR(if |s| > 1 && s[1] == LF then s[2..] else s[1..], "");
      } else if s[0] == LF {
        StandardLinesHaveNoCR(s[1..], "");
      } else {
        StandardLinesHaveNoCR(s[1..], line + [s[0]]);
      }
    }
  }

  lemma {:induction false} StandardReadsWritten(packets: seq<Packet>)
    requires forall p <- packets :: ValidKind(p.kind) && CR !in p.payload
    ensures StandardRead(WriteAll(packets)) == packets
  {
    if packets != [] {
      var p := packets[0];
      StandardFrame(p.kind, p.payload, WriteAll(packets[1..]));
      StandardReadsWritten(packets[1..]);
      assert packets == [p] + packets[1..];
    }
  }

  lemma {:induction false} StandardLinesPrefix(a: string, b: string, line: string)
    ensures StandardLines(a, line) <= StandardLines(a + b, line)
    decreases |a|
  {
    if a != "" {
      var all := a + b;
      assert all[1..] == a[1..] + b;
      if a[0] == CR {
        if |a| > 1 && a[1] == LF {
          assert all[2..] == a[2..] + b;
          StandardLinesPrefix(a[2..], b, "");
        } else if |a| > 1 {
          StandardLinesPrefix(a[1..], b, "");
        }
      } else if a[0] == LF {
        StandardLinesPrefix(a[1..], b, "");
      } else {
        StandardLinesPrefix(a[1..], b, line + [a[0]]);
      }
    }
  }

  lemma {:induction false} DispatchPrefix(lines: seq<string>, more: seq<string>, kind: string, data: string)
    ensures Dispatch(lines, kind, data) <= Dispatch(lines + more, kind, data)
  {
    if lines != [] {
      assert (lines + more)[1..] == lines[1..] + more;
      hide Dispatched, KindAfter, DataAfter;
      DispatchPrefix(lines[1..], more, KindAfter(lines[0], kind), DataAfter(lines[0], data));
    }
  }

  /** Cutting any stream loses only a tail of what a conforming parser dispatches. */
  lemma StandardReadPrefix(received: string, unseen: string)
    ensures StandardRead(received) <= StandardRead(received + unseen)
  {
    StandardLinesPrefix(received, unseen, "");
    var lines, all := StandardLines(received, ""), StandardLines(received + unseen, "");
    assert all == lines + all[|lines|..];
    DispatchPrefix(lines, all[|lines|..], "", "");
  }

  /**
   * A conforming browser recovers exactly the packets written, kinds and payloads, if
   * and only if no payload contains a CR: the writer splits lines at LF alone, while
   * the standard also ends a line at CR.
   */
  lemma StandardRoundTrip(packets: seq<Packet>)
    requires forall p <- packets :: ValidKind(p.kind)
    ensures StandardRead(WriteAll(packets)) == packets <==> forall p <- packets :: CR !in p.payload
  {
    if forall p <- packets :: CR !in p.payload {
      StandardReadsWritten(packets);
    } else {
      StandardLinesHaveNoCR(WriteAll(packets), "");
      DispatchedDataHasNoCR(StandardLines(WriteAll(packets), ""), "", "");
    }
  }

  // ---------------------------------------------------------------------------
  // The client's reader against the standard's parser
  // ---------------------------------------------------------------------------

  /** The lines of a text one character longer at the front. */
  lemma LinesPush(c: char, s: string)
    ensures Lines([c] + s) ==
      if c == LF then [""] + Lines(s) else if Lines(s) == [] then [] else [[c] + Lines(s)[0]] + Lines(s)[1..]
  {
    assert ([c] + s)[1..] == s;
    var pieces := Split(s);
    if |pieces| > 1 {
      assert pieces[..|pieces| - 1][0] == pieces[0];
    }
  }

  /** A line broken off after some characters. */
  function Glued(before: string, lines: seq<string>): seq<string>
  {
    if lines == [] then [] else [before + lines[0]] + lines[1..]
  }

  lemma GluedCons(before: string, first: string, more: seq<string>)
    ensures Glued(before, [first] + more) == [before + first] + more
  {
    assert ([first] + more)[1..] == more;
  }

  lemma GluedMore(before: string, c: char, lines: seq<string>)
    ensures Glued(before + [c], lines) == Glued(before, if lines == [] then [] else [[c] + lines[0]] + lines[1..])
  {
    if lines != [] {
      GluedCons(before, [c] + lines[0], lines[1..]);
      Regroup(before, [c], lines[0]);
    }
  }

  lemma StandardLinesPush(c: char, s: string, before: string)
    requires c != CR
    ensures StandardLines([c] + s, before) ==
      if c == LF then [before] + StandardLines(s, "") else StandardLines(s, before + [c])
  {
    assert ([c] + s)[1..] == s;
  }

  /** Without CR the standard's lines are the pieces between line feeds. */
  lemma {:induction false} StandardLinesAre(s: string, before: string)
    requires CR !in s
    ensures StandardLines(s, before) == Glued(before, Lines(s))
    decreases |s|
  {
    if s != "" {
      var c, rest := s[0], s[1..];
      assert s == [c] + rest;
      hide *;
      StandardLinesPush(c, rest, before);
      LinesPush(c, rest);
      if c == LF {
        StandardLinesAre(rest, "");
        GluedNothing(Lines(rest));
        GluedCons(before, "", Lines(rest));
        assert before + "" == before;
      } else {
        GluedMore(before, c, Lines(rest));
        StandardLinesAre(rest, before + [c]);
      }
    } else {
      assert Lines(s) == [];
    }
  }

  lemma GluedNothing(lines: seq<string>)
    ensures Glued("", lines) == lines
  {
    if lines != [] {
      assert "" + lines[0] == lines[0];
    }
  }

  /** The data buffer ends its last line. */
  predicate Terminated(buf: string)
  {
    buf != "" ==> buf[|buf| - 1] == LF
  }

  lemma {:induction false} DataColon(line: string)
    ensures "data:" <= line ==> ColonAt(line) == 4
    ensures FieldOf(line) == "data" && line != "data" ==> "data:" <= line
  {
    if "data:" <= line {
      FirstColon("data", line[5..]);
      assert line == "data" + ":" + line[5..];
    }
    ColonThere(line);
  }

  lemma {:induction false} ColonThere(line: string)
    ensures ColonAt(line) < |line| ==> line[ColonAt(line)] == ':'
  {
    if line != "" && line[0] != ':' {
      ColonThere(line[1..]);
    }
  }

  /** One line does the same in both. */
  lemma LineAgrees(line: string, kind: string, buf: string)
    requires CR !in line && LF !in line && line != "data" && Terminated(buf)
    ensures TrimRight(line) == line
    ensures DataAfter(line, buf) == NextBuffer(buf, line) && Terminated(NextBuffer(buf, line))
    ensures Payloads(Dispatched(line, kind, buf)) == Completed(buf, line)
  {
    NothingTrimmed(line);
    DataColon(line);
    hide TrimRight, ColonAt;
    assert buf != "" ==> buf[..|buf| - 1] + [LF] == buf;
  }

  lemma NothingTrimmed(line: string)
    requires CR !in line && LF !in line
    ensures TrimRight(line) == line
  {
    TrimRightShrinks(line);
    assert line != "" ==> line[|line| - 1] in line;
  }

  /** What the client's reader is expected to deliver for dispatched events. */
  function Payloads(packets: seq<Packet>): seq<string>
  {
    seq(|packets|, i requires 0 <= i < |packets| => packets[i].payload + [LF])
  }

  /** The bare `data` lines in events that a blank line ends, with some pending before. */
  function Bare(lines: seq<string>, pending: nat): nat
  {
    if lines == [] then 0
    else if lines[0] == "" then pending + Bare(lines[1..], 0)
    else Bare(lines[1..], if lines[0] == "data" then pending + 1 else pending)
  }

  predicate Bodies(lines: seq<string>)
  {
    forall l <- lines :: CR !in l && LF !in l
  }

  lemma PayloadsAppend(a: seq<Packet>, b: seq<Packet>)
    ensures Payloads(a + b) == Payloads(a) + Payloads(b)
  {
  }

  lemma BareField(buf: string, kind: string, data: string)
    ensures DataAfter("data", data) == data + [LF] && NextBuffer(buf, TrimRight("data")) == buf
    ensures Dispatched("data", kind, data) == [] && Completed(buf, TrimRight("data")) == []
  {
    FirstColonNone("data");
    TrimRightShrinks("data");
    assert data + "" + [LF] == data + [LF];
  }

  lemma {:induction false} FirstColonNone(line: string)
    requires ':' !in line
    ensures ColonAt(line) == |line| && FieldOf(line) == line && ValueOf(line) == ""
  {
    if line != "" {
      FirstColonNone(line[1..]);
    }
  }

  lemma NextLineOf(lines: seq<string>, buf: string, kind: string, data: string)
    requires lines != []
    ensures var line := TrimRight(lines[0]);
            ReadLines(lines, buf) == Completed(buf, line) + ReadLines(lines[1..], NextBuffer(buf, line))
    ensures Dispatch(lines, kind, data)
         == Dispatched(lines[0], kind, data) + Dispatch(lines[1..], KindAfter(lines[0], kind), DataAfter(lines[0], data))
  {
  }

  lemma TailBodies(lines: seq<string>)
    requires lines != [] && Bodies(lines)
    ensures Bodies(lines[1..]) && CR !in lines[0] && LF !in lines[0]
  {
    assert lines[0] in lines && forall l <- lines[1..] :: l in lines;
  }

  /** The bare `data` lines pending after a line. */
  function Pending(line: string, pending: nat): nat
  {
    if line == "" then 0 else if line == "data" then pending + 1 else pending
  }

  /** One line, when no event that ends has a bare `data` line. */
  lemma StepAgrees(lines: seq<string>, kind: string, buf: string, data: string, pending: nat)
    requires lines != [] && Bodies(lines) && Terminated(buf) && Bare(lines, pending) == 0 && (pending == 0 ==> data == buf)
    ensures var line := lines[0]; var now, next := Pending(line, pending), NextBuffer(buf, TrimRight(line));
            && Payloads(Dispatched(line, kind, data)) == Completed(buf, TrimRight(line))
            && Bodies(lines[1..]) && Terminated(next) && Bare(lines[1..], now) == 0
            && (now == 0 ==> DataAfter(line, data) == next)
  {
    var line := lines[0];
    TailBodies(lines);
    NothingSpelled();
    if line == "data" {
      BareField(buf, kind, data);
      hide TrimRight, FieldOf, ValueOf;
    } else {
      LineAgrees(line, kind, buf);
      hide TrimRight, FieldOf, ValueOf, Payloads;
      assert line != "" ==> Dispatched(line, kind, data) == [] && Completed(buf, line) == [];
    }
  }

  /** Then both deliver the same. */
  lemma {:induction false} LinesAgree(lines: seq<string>, kind: string, buf: string, data: string, pending: nat)
    requires Bodies(lines) && Terminated(buf) && Bare(lines, pending) == 0 && (pending == 0 ==> data == buf)
    ensures ReadLines(lines, buf) == Payloads(Dispatch(lines, kind, data))
  {
    if lines == [] {
      NothingSpelled();
    } else {
      hide *;
      var line := lines[0];
      StepAgrees(lines, kind, buf, data, pending);
      NextLineOf(lines, buf, kind, data);
      PayloadsAppend(Dispatched(line, kind, data), Dispatch(lines[1..], KindAfter(line, kind), DataAfter(line, data)));
      LinesAgree(lines[1..], KindAfter(line, kind), NextBuffer(buf, TrimRight(line)), DataAfter(line, data),
                 Pending(line, pending));
    }
  }

  /** A blank line delivers and empties both buffers. */
  lemma BlankDelivers(kind: string, buf: string, data: string)
    ensures DataAfter("", data) == NextBuffer(buf, "") == ""
    ensures |Concat(Payloads(Dispatched("", kind, data)))| == |data| && |Concat(Completed(buf, ""))| == |buf|
  {
    if data != "" {
      ConcatSingle(data[..|data| - 1] + [LF]);
      assert Payloads(Dispatched("", kind, data)) == [data[..|data| - 1] + [LF]];
    }
    if buf != "" {
      ConcatSingle(buf);
    }
  }

  /** A line that is neither blank nor a bare `data` delivers nothing and adds as much to either buffer. */
  lemma LineAdds(line: string, kind: string, buf: string, data: string)
    requires CR !in line && LF !in line && line != "data" && line != ""
    ensures TrimRight(line) == line && Dispatched(line, kind, data) == [] && Completed(buf, line) == []
    ensures |DataAfter(line, data)| - |data| == |NextBuffer(buf, line)| - |buf|
  {
    NothingTrimmed(line);
    DataColon(line);
    hide TrimRight;
  }

  /** The standard's parser delivers one LF more for each bare `data` line in an event that ends. */
  lemma {:induction false} BareLength(lines: seq<string>, kind: string, buf: string, data: string, pending: nat)
    requires Bodies(lines) && |data| == |buf| + pending
    ensures |Concat(Payloads(Dispatch(lines, kind, data)))| == |Concat(ReadLines(lines, buf))| + Bare(lines, pending)
  {
    if lines != [] {
      var line := lines[0];
      TailBodies(lines);
      NextLineOf(lines, buf, kind, data);
      var first, more := Dispatched(line, kind, data), Dispatch(lines[1..], KindAfter(line, kind), DataAfter(line, data));
      PayloadsAppend(first, more);
      ConcatAppend(Payloads(first), Payloads(more));
      var t := TrimRight(line);
      ConcatAppend(Completed(buf, t), ReadLines(lines[1..], NextBuffer(buf, t)));
      if line == "data" {
        BareField(buf, kind, data);
        NothingSpelled();
        hide Dispatched, Completed, NextBuffer, DataAfter, KindAfter, TrimRight, Dispatch, ReadLines, Payloads, Concat;
        BareLength(lines[1..], KindAfter(line, kind), buf, DataAfter(line, data), pending + 1);
      } else {
        if line == "" {
          BlankDelivers(kind, buf, data);
          assert t == "";
        } else {
          LineAdds(line, kind, buf, data);
          NothingSpelled();
        }
        hide Dispatched, Completed, NextBuffer, DataAfter, KindAfter, TrimRight, Dispatch, ReadLines, Payloads, Concat;
        BareLength(lines[1..], KindAfter(line, kind), NextBuffer(buf, line), DataAfter(line, data),
                   if line == "" then 0 else pending);
      }
    }
  }

  lemma NothingSpelled()
    ensures Payloads([]) == [] && Concat([]) == ""
  {
  }

  /**
   * On any stream without CR, whoever wrote it, the client delivers what the standard's
   * parser dispatches, each with one LF, if and only if no event that is ended by a blank
   * line has a line that is the bare word `data` without a colon.
   */
  lemma ReadersAgree(stream: string)
    requires CR !in stream
    ensures Read(stream) == Payloads(StandardRead(stream)) <==> Bare(Lines(stream), 0) == 0
  {
    StandardLinesAre(stream, "");
    var lines := Lines(stream);
    GluedNothing(lines);
    assert Bodies(lines) by {
      SplitPiecesHaveNoLF(stream);
      SplitPiecesHaveNoCR(stream);
      assert forall l <- lines :: l in Split(stream);
    }
    assert Terminated("");
    hide ReadLines, Dispatch, Payloads, Bare, Lines, StandardLines, Bodies, Concat;
    BareLength(lines, "", "", "", 0);
    if Bare(lines, 0) == 0 {
      LinesAgree(lines, "", "", "", 0);
    }
  }

  lemma BareDataLines()
    ensures Lines("data\n\n") == ["data", ""]
  {
    var stream := "data\n\n";
    assert stream == "data" + [LF] + ([LF] + "") && [LF] + "" == "" + [LF] + "";
    SplitLine("data", [LF] + "");
    SplitLine("", "");
  }

  /** A bare `data` line is an empty data field to the standard, and nothing to the client. */
  lemma BareDataDiffers()
    ensures Read("data\n\n") == [] && StandardRead("data\n\n") == [Packet("message", "")]
  {
    BareDataLines();
    StandardLinesAre("data\n\n", "");
    GluedNothing(["data", ""]);
    BareField("", "", "");
    hide Lines, StandardLines, TrimRight;
    assert TrimRight("") == "" by { TrimRightShrinks(""); }
    assert ["data", ""][1..] == [""] && [""][1..] == [];
    assert "" + [LF] == [LF];
  }
}
