/** What a browser reads is what SendSSE was given. */
module EventStreamLaws {
  import opened Text
  import opened EventStream

  // ----- One call -----

  lemma ReadOptional(r: Reader, name: string, arg: string)
    requires name != "" && Free(name, ':')
    ensures ReadLines(r, OptionalLine(name, arg)) == if arg == "" then r else SetField(r, name, FirstLine(arg))
  {
    if arg != "" {
      ReadOne(r, name + ": " + FirstLine(arg));
      ReadField(r, name, FirstLine(arg));
    }
  }

  lemma ReadDataArg(r: Reader, data: string)
    requires r.data == ""
    ensures ReadLines(r, DataLines(data)) == r.(data := if data == "" then "" else data + "\n")
  {
    if data != "" {
      ReadData(r, Split(data, '\n'));
      SplitParts(data, '\n');
      assert "" + data + "\n" == data + "\n";
    }
  }

  /** The buffers once all fields of a message have been read. */
  function Buffered(r: Reader, m: Message): Reader {
    var r1 := if m.event == "" then r else SetField(r, "event", FirstLine(m.event));
    var r2 := r1.(data := if m.data == "" then "" else m.data + "\n");
    var r3 := if m.id == "" then r2 else SetField(r2, "id", FirstLine(m.id));
    if m.retry == "" then r3 else SetField(r3, "retry", FirstLine(m.retry))
  }

  lemma ReadFields(r: Reader, m: Message)
    requires r.data == ""
    ensures ReadLines(r, FieldLines(m)) == Buffered(r, m)
  {
    var a, b, c, d := OptionalLine("event", m.event), DataLines(m.data), OptionalLine("id", m.id), OptionalLine("retry", m.retry);
    hide ReadLines, OptionalLine, DataLines;
    ReadLinesConcat(r, a + b + c, d);
    ReadLinesConcat(r, a + b, c);
    ReadLinesConcat(r, a, b);
    ReadOptional(r, "event", m.event);
    ReadDataArg(ReadLines(r, a), m.data);
    ReadOptional(ReadLines(r, a + b), "id", m.id);
    ReadOptional(ReadLines(r, a + b + c), "retry", m.retry);
  }

  predicate NulFree(args: seq<string>) {
    Free(FirstLine(FromArgs(args).id), '\0')
  }

  /** Between calls the reader's buffers are empty; a call delivers one event or none. */
  lemma ReadCall(r: Reader, args: seq<string>)
    requires Idle(r) && NulFree(args)
    ensures ReadLines(r, Written(args)) == Deliver(r, args) && Idle(Deliver(r, args))
  {
    var m := FromArgs(args);
    if Written(args) != [] {
      ReadFields(r, m);
      ReadLinesConcat(r, FieldLines(m), ["", ""]);
      ReadTwoBlanks(Buffered(r, m));
      DispatchBuffered(r, args);
    } else if 1 <= |args| <= 4 {
      assert FieldLines(m) == [];
      assert m.event == "" && m.data == "" && m.id == "" && m.retry == "";
      assert r.dispatched + [] == r.dispatched;
    }
  }

  lemma ReadTwoBlanks(r: Reader)
    ensures ReadLines(r, ["", ""]) == Dispatch(Dispatch(r))
  {
    var s, t := ["", ""], [""];
    assert s[1..] == t && t[1..] == [];
    assert ReadLines(r, s) == ReadLines(Dispatch(r), t) == ReadLines(Dispatch(Dispatch(r)), []);
  }

  lemma DispatchBuffered(r: Reader, args: seq<string>)
    requires Idle(r) && NulFree(args) && 1 <= |args| <= 4
    ensures Dispatch(Dispatch(Buffered(r, FromArgs(args)))) == Deliver(r, args)
  {
    var m := FromArgs(args);
    var b := Buffered(r, m);
    if m.data != "" {
      assert b.data[..|b.data| - 1] == m.data;
    } else {
      assert r.dispatched + [] == r.dispatched;
    }
  }

  // ----- Any sequence of calls -----

  /** No CR in anything the call writes. */
  predicate Readable(args: seq<string>) {
    var m := FromArgs(args);
    1 <= |args| <= 4 ==>
      Free(FirstLine(m.event), '\r') && Free(m.data, '\r') && Free(FirstLine(m.id), '\r') && Free(FirstLine(m.retry), '\r')
  }

  function WrittenAll(calls: seq<seq<string>>): seq<string> {
    if calls == [] then [] else Written(calls[0]) + WrittenAll(calls[1..])
  }

  lemma FirstLinePlain(s: string)
    ensures Free(FirstLine(s), '\n')
  {
    SplitParts(s, '\n');
    assert Free(Split(s, '\n')[0], '\n');
  }

  lemma OptionalPlain(name: string, arg: string)
    requires PlainLine(name)
    ensures PlainLines(OptionalLine(name, arg)) <==> Free(FirstLine(arg), '\r')
  {
    FirstLinePlain(arg);
    if arg != "" {
      var line := name + ": " + FirstLine(arg);
      assert line[|name| + 2..] == FirstLine(arg);
      assert forall i :: 0 <= i < |FirstLine(arg)| ==> line[|name| + 2 + i] == FirstLine(arg)[i];
      assert OptionalLine(name, arg)[0] == line;
    }
  }

  lemma {:induction false} PrefixedPlain(lines: seq<string>)
    requires AllFree(lines, '\n')
    ensures PlainLines(Prefixed("data: ", lines)) <==> AllFree(lines, '\r')
  {
    if lines != [] {
      PrefixedPlain(lines[1..]);
      var p := Prefixed("data: ", lines);
      assert p[1..] == Prefixed("data: ", lines[1..]);
      assert forall i :: 0 <= i < |lines[0]| ==> p[0][6 + i] == lines[0][i];
      assert PlainLine(p[0]) <==> Free(lines[0], '\r');
      PlainLinesHead(p);
      assert AllFree(lines, '\r') <==> Free(lines[0], '\r') && AllFree(lines[1..], '\r') by {
        assert forall i :: 1 <= i < |lines| ==> lines[i] == lines[1..][i - 1];
      }
    }
  }

  lemma PlainLinesHead(lines: seq<string>)
    requires lines != []
    ensures PlainLines(lines) <==> PlainLine(lines[0]) && PlainLines(lines[1..])
  {
    assert forall i :: 1 <= i < |lines| ==> lines[i] == lines[1..][i - 1];
  }

  lemma PlainLinesConcat(a: seq<string>, b: seq<string>)
    ensures PlainLines(a + b) <==> PlainLines(a) && PlainLines(b)
  {
    assert forall i :: 0 <= i < |a| ==> (a + b)[i] == a[i];
    assert forall i :: 0 <= i < |b| ==> (a + b)[|a| + i] == b[i];
  }

  lemma {:induction false} SplitFreeOf(s: string, sep: char, c: char)
    requires c != sep
    ensures AllFree(Split(s, sep), c) <==> Free(s, c)
  {
    if s != "" {
      SplitFreeOf(s[1..], sep, c);
      var p, rest := Split(s, sep), Split(s[1..], sep);
      assert Free(s, c) <==> s[0] != c && Free(s[1..], c) by {
        assert forall i :: 1 <= i < |s| ==> s[i] == s[1..][i - 1];
      }
      if s[0] == sep {
        assert p[1..] == rest;
        assert forall i :: 1 <= i < |p| ==> p[i] == rest[i - 1];
        assert forall i :: 0 <= i < |rest| ==> rest[i] == p[i + 1];
      } else {
        assert forall i :: 1 <= i < |p| ==> p[i] == rest[i];
        assert Free(p[0], c) <==> s[0] != c && Free(rest[0], c) by {
          assert p[0][0] == s[0];
          assert forall i :: 0 <= i < |rest[0]| ==> p[0][i + 1] == rest[0][i];
        }
        assert AllFree(p, c) <==> s[0] != c && AllFree(rest, c);
      }
    }
  }

  lemma DataPlain(data: string)
    ensures PlainLines(DataLines(data)) <==> Free(data, '\r')
  {
    if data != "" {
      SplitParts(data, '\n');
      PrefixedPlain(Split(data, '\n'));
      SplitFreeOf(data, '\n', '\r');
    }
  }

  lemma WrittenPlain(args: seq<string>)
    ensures PlainLines(Written(args)) <==> Readable(args)
  {
    var m := FromArgs(args);
    var a, b, c, d := OptionalLine("event", m.event), DataLines(m.data), OptionalLine("id", m.id), OptionalLine("retry", m.retry);
    OptionalPlain("event", m.event);
    OptionalPlain("id", m.id);
    OptionalPlain("retry", m.retry);
    DataPlain(m.data);
    PlainLinesConcat(a, b);
    PlainLinesConcat(a + b, c);
    PlainLinesConcat(a + b + c, d);
    PlainLinesConcat(FieldLines(m), ["", ""]);
  }

  ghost predicate AllReadable(calls: seq<seq<string>>) {
    forall i :: 0 <= i < |calls| ==> Readable(calls[i])
  }

  lemma {:induction false} WrittenAllPlain(calls: seq<seq<string>>)
    ensures PlainLines(WrittenAll(calls)) <==> AllReadable(calls)
  {
    if calls != [] {
      WrittenAllPlain(calls[1..]);
      WrittenPlain(calls[0]);
      PlainLinesConcat(Written(calls[0]), WrittenAll(calls[1..]));
      assert forall i :: 1 <= i < |calls| ==> calls[i] == calls[1..][i - 1];
    }
  }

  lemma {:induction false} StreamIsPrint(calls: seq<seq<string>>)
    ensures Stream(calls) == Print(WrittenAll(calls))
  {
    if calls != [] {
      StreamIsPrint(calls[1..]);
      PrintConcat(Written(calls[0]), WrittenAll(calls[1..]));
    }
  }

  /** The stream never starts with a byte order mark, which a reader would drop. */
  lemma {:induction false} StreamStart(calls: seq<seq<string>>)
    ensures Stream(calls) != "" ==> Stream(calls)[0] != BOM
  {
    if calls != [] {
      StreamStart(calls[1..]);
      var w := Written(calls[0]);
      if w != [] {
        FieldStart(FromArgs(calls[0]));
        assert Print(w)[0] == w[0][0];
      } else {
        assert Print(w) == "";
      }
    }
  }

  lemma FieldStart(m: Message)
    requires FieldLines(m) != []
    ensures FieldLines(m)[0] != "" && FieldLines(m)[0][0] != BOM
  {
    if m.event == "" && m.data != "" {
      assert FieldLines(m)[0] == "data: " + Split(m.data, '\n')[0];
    }
  }

  /** Every line written is read as one line exactly when no call writes a CR. */
  lemma StreamLines(calls: seq<seq<string>>)
    ensures Lines(Stream(calls)) == WrittenAll(calls) <==> AllReadable(calls)
  {
    StreamStart(calls);
    StreamIsPrint(calls);
    WrittenAllPlain(calls);
    LinesPlain(Stream(calls), "");
    if AllReadable(calls) {
      LinesOfPrint(WrittenAll(calls), "");
      assert Print(WrittenAll(calls)) + "" == Print(WrittenAll(calls));
      assert WrittenAll(calls) + LinesFrom("", "") == WrittenAll(calls);
    }
  }

  lemma {:induction false} ReadWritten(r: Reader, calls: seq<seq<string>>)
    requires Idle(r) && forall i :: 0 <= i < |calls| ==> NulFree(calls[i])
    ensures ReadLines(r, WrittenAll(calls)) == Expected(r, calls)
    decreases calls
  {
    if calls != [] {
      ReadLinesConcat(r, Written(calls[0]), WrittenAll(calls[1..]));
      ReadCall(r, calls[0]);
      ReadWritten(Deliver(r, calls[0]), calls[1..]);
    }
  }

  /** The bytes of any sequence of calls, read by the standard's algorithm, dispatch exactly
      the calls with data, in order and unchanged. */
  lemma StreamRoundTrip(calls: seq<seq<string>>)
    requires AllReadable(calls) && forall i :: 0 <= i < |calls| ==> NulFree(calls[i])
    ensures Read(Stream(calls)) == Expected(FreshReader, calls)
  {
    StreamLines(calls);
    ReadWritten(FreshReader, calls);
  }

  // ----- Why CR and NUL are excluded -----

  predicate PlainReader(r: Reader) {
    && Free(r.data, '\r') && Free(r.event, '\r') && Free(r.id, '\r') && Free(r.id, '\0')
    && forall i :: 0 <= i < |r.dispatched| ==> PlainEvent(r.dispatched[i])
  }

  predicate PlainEvent(e: Event) {
    Free(e.data, '\r') && Free(e.kind, '\r') && Free(e.lastId, '\r') && Free(e.lastId, '\0')
  }

  lemma ReadLinePlain(r: Reader, line: string)
    requires PlainReader(r) && PlainLine(line)
    ensures PlainReader(ReadLine(r, line))
  {
  }

  lemma {:induction false} ReadLinesPlain(r: Reader, lines: seq<string>)
    requires PlainReader(r) && PlainLines(lines)
    ensures PlainReader(ReadLines(r, lines))
    decreases lines
  {
    if lines != [] {
      ReadLinePlain(r, lines[0]);
      ReadLinesPlain(ReadLine(r, lines[0]), lines[1..]);
    }
  }

  /** No stream whatever makes a reader dispatch a CR, or an id with a NUL: a call with data
      whose event, data or id holds one cannot be read back. */
  lemma UnreadableNeverDispatched(s: string, calls: seq<seq<string>>, i: nat)
    requires i < |Expected(FreshReader, calls).dispatched|
    requires !PlainEvent(Expected(FreshReader, calls).dispatched[i])
    ensures Read(s).dispatched != Expected(FreshReader, calls).dispatched
  {
    LinesPlain(if s != "" && s[0] == BOM then s[1..] else s, "");
    ReadLinesPlain(FreshReader, Lines(s));
  }

  lemma {:induction false} LineEndedByCr(line: string, rest: string, cur: string)
    requires PlainLine(line) && (rest == "" || rest[0] != '\n')
    ensures LinesFrom(line + "\r" + rest, cur) == [cur + line] + LinesFrom(rest, "")
    decreases line
  {
    var s := line + "\r" + rest;
    if line == "" {
      assert s[1..] == rest && cur + line == cur;
    } else {
      assert s[1..] == line[1..] + "\r" + rest;
      LineEndedByCr(line[1..], rest, cur + [line[0]]);
      assert cur + [line[0]] + line[1..] == cur + line;
    }
  }

  lemma StreamOne(args: seq<string>)
    ensures Stream([args]) == Print(Written(args))
  {
    var one := [args];
    assert one[1..] == [];
    assert Print(Written(args)) + "" == Print(Written(args));
  }

  lemma WrittenData(d: string)
    requires d != "" && Free(d, '\n')
    ensures DataLines(d) == ["data: " + d]
  {
    SplitFree(d, '\n');
    var one := [d];
    assert Prefixed("data: ", one[1..]) == [];
  }

  lemma WrittenCall(args: seq<string>, d: string, id: string)
    requires d != "" && Free(d, '\n') && Free(id, '\n')
    requires args == (if id == "" then ["", d] else ["", d, id])
    ensures Written(args) == ["data: " + d] + ((if id == "" then [] else ["id: " + id]) + ["", ""])
  {
    WrittenData(d);
    SplitFree(id, '\n');
    assert FromArgs(args) == Message("", d, id, "");
    hide FromArgs, DataLines;
    assert "id" + ": " + id == "id: " + id;
    assert OptionalLine("id", id) == if id == "" then [] else ["id: " + id];
    assert FieldLines(FromArgs(args)) == ["data: " + d] + (if id == "" then [] else ["id: " + id]);
  }

  lemma PlainPieces(d: string, id: string)
    requires PlainLine(d) && PlainLine(id)
    ensures PlainLine("data: " + d) && PlainLine("id: " + id) && Free(d + "\rid: " + id, '\n') && Free(d, '\n') && Free(id, '\n')
    ensures Free("", '\n') && ("data: " + d)[0] != BOM
    ensures "data: " + (d + "\rid: " + id) == "data: " + d + "\r" + ("id: " + id)
  {
  }

  lemma SameLinesSameRead(a: string, b: string)
    requires Lines(a) == Lines(b)
    ensures Read(a) == Read(b)
  {
  }

  /** A CR in the data reaches a reader as a line end, and what follows it as a field of its
      own: such data is read as if its tail had been given as the id. */
  lemma CrInDataSetsId(d: string, id: string)
    requires d != "" && PlainLine(d) && id != "" && PlainLine(id)
    ensures Read(Stream([["", d + "\rid: " + id]])) == Read(Stream([["", d, id]]))
  {
    hide Read, Stream, Lines, Print, Written, PlainLine, Free;
    PlainPieces(d, id);
    var joined := d + "\rid: " + id;
    var a, b := ["", joined], ["", d, id];
    WrittenCall(a, joined, "");
    WrittenCall(b, d, id);
    StreamOne(a);
    StreamOne(b);
    assert [] + ["", ""] == ["", ""];
    CrLines("data: " + d, "id: " + id, "data: " + joined);
    SameLinesSameRead(Stream([a]), Stream([b]));
  }

  lemma CrLines(line1: string, line2: string, both: string)
    requires both == line1 + "\r" + line2 && line1 != "" && line1[0] != BOM && line2 != "" && PlainLine(line1) && PlainLine(line2)
    ensures Lines(Print([both] + ["", ""])) == Lines(Print([line1] + ([line2] + ["", ""])))
  {
    var tail, rest := Print(["", ""]), Print([line2] + ["", ""]);
    assert ([both] + ["", ""])[1..] == ["", ""] && ([line2] + ["", ""])[1..] == ["", ""];
    assert ([line1] + ([line2] + ["", ""]))[1..] == [line2] + ["", ""];
    var cr, lf := Print([both] + ["", ""]), Print([line1] + ([line2] + ["", ""]));
    hide Print;
    assert rest == line2 + "\n" + tail && rest[0] == line2[0];
    assert cr == line1 + "\r" + rest && lf == line1 + "\n" + rest;
    LineEndedByCr(line1, rest, "");
    LinesOfLine(line1, rest, "");
  }

  // ----- The arguments, one by one -----

  /** A call with all four arguments, the event, the data, the id and the reconnection time in
      that order, is read as just that event. */
  lemma FourArguments(event: string, data: string, id: string, retry: string)
    requires event != "" && PlainLine(event) && data != "" && Free(data, '\r')
    requires id != "" && PlainLine(id) && Free(id, '\0') && Digits(retry)
    ensures Read(Stream([[event, data, id, retry]])) == Reader("", "", id, retry, [Event(event, data, id)])
  {
    var args := [event, data, id, retry];
    assert FromArgs(args) == Message(event, data, id, retry);
    OneCall(args);
  }

  /** Without a reconnection time none is set, and without an id none is sent. */
  lemma ThreeArguments(event: string, data: string, id: string)
    requires event != "" && PlainLine(event) && data != "" && Free(data, '\r') && id != "" && PlainLine(id) && Free(id, '\0')
    ensures Read(Stream([[event, data, id]])) == Reader("", "", id, "", [Event(event, data, id)])
    ensures Read(Stream([[event, data]])) == Reader("", "", "", "", [Event(event, data, "")])
  {
    var three, two := [event, data, id], [event, data];
    assert FromArgs(three) == Message(event, data, id, "") && FromArgs(two) == Message(event, data, "", "");
    OneCall(three);
    OneCall(two);
  }

  /** A call without data dispatches nothing; one without an event name dispatches a message. */
  lemma MissingArguments(event: string, data: string)
    requires PlainLine(event) && data != "" && Free(data, '\r')
    ensures Read(Stream([[event]])) == FreshReader
    ensures Read(Stream([["", data]])) == Reader("", "", "", "", [Event("message", data, "")])
  {
    var one, two := [event], ["", data];
    assert FromArgs(one) == Message(event, "", "", "") && FromArgs(two) == Message("", data, "", "");
    OneCall(one);
    OneCall(two);
  }

  lemma FirstLineWhole(s: string)
    requires Free(s, '\n')
    ensures FirstLine(s) == s
  {
    SplitFree(s, '\n');
  }

  lemma DigitsPlain(s: string)
    requires Digits(s)
    ensures PlainLine(s)
  {
  }

  lemma OneCall(args: seq<string>)
    requires 1 <= |args| <= 4
    requires var m := FromArgs(args);
             && PlainLine(m.event) && Free(m.data, '\r') && PlainLine(m.id) && Free(m.id, '\0')
             && (m.retry == "" || Digits(m.retry))
    ensures var m := FromArgs(args);
            Read(Stream([args])) == Reader("", "", m.id, m.retry,
              if m.data == "" then [] else [Event(if m.event == "" then "message" else m.event, m.data, m.id)])
  {
    var m, calls := FromArgs(args), [args];
    if m.retry != "" {
      DigitsPlain(m.retry);
    }
    FirstLineWhole(m.event);
    FirstLineWhole(m.id);
    FirstLineWhole(m.retry);
    assert Readable(args) && NulFree(args);
    StreamRoundTrip(calls);
    hide Read, Stream, FromArgs, FirstLine, Digits, PlainLine;
    assert calls[1..] == [] && Expected(FreshReader, calls) == Deliver(FreshReader, args);
  }

  /** The bytes of a call with one line of data. */
  lemma CallBytes(event: string, data: string, id: string, retry: string)
    requires event != "" && Free(event, '\n') && data != "" && Free(data, '\n')
    requires id != "" && Free(id, '\n') && retry != "" && Free(retry, '\n')
    ensures Stream([[event, data, id, retry]])
         == ("event: " + event) + "\n" + ("data: " + data) + "\n" + ("id: " + id) + "\n" + ("retry: " + retry) + "\n" + "\n\n"
  {
    var args := [event, data, id, retry];
    FourLines(args, event, data, id, retry);
    StreamOne(args);
    hide Stream, Print, FieldLines, FromArgs;
    PrintSix("event: " + event, "data: " + data, "id: " + id, "retry: " + retry);
  }

  lemma FourLines(args: seq<string>, event: string, data: string, id: string, retry: string)
    requires event != "" && Free(event, '\n') && data != "" && Free(data, '\n')
    requires id != "" && Free(id, '\n') && retry != "" && Free(retry, '\n') && args == [event, data, id, retry]
    ensures Written(args) == ["event: " + event] + ["data: " + data] + ["id: " + id] + ["retry: " + retry] + ["", ""]
  {
    assert FromArgs(args) == Message(event, data, id, retry);
    WrittenData(data);
    FirstLineWhole(event);
    FirstLineWhole(id);
    FirstLineWhole(retry);
    hide FromArgs, FirstLine, DataLines, Free;
    assert "event" + ": " + event == "event: " + event;
    assert "id" + ": " + id == "id: " + id;
    assert "retry" + ": " + retry == "retry: " + retry;
  }

  lemma PrintSix(a: string, b: string, c: string, d: string)
    ensures Print([a] + [b] + [c] + [d] + ["", ""]) == a + "\n" + b + "\n" + c + "\n" + d + "\n" + "\n\n"
  {
    hide Print;
    PrintConcat([a] + [b] + [c] + [d], ["", ""]);
    PrintConcat([a] + [b] + [c], [d]);
    PrintConcat([a] + [b], [c]);
    PrintConcat([a], [b]);
    PrintOne(a);
    PrintOne(b);
    PrintOne(c);
    PrintOne(d);
    PrintOne("");
    PrintConcat([""], [""]);
    assert ["", ""] == [""] + [""];
    assert "" + "\n" + ("" + "\n") == "\n\n";
  }
}
