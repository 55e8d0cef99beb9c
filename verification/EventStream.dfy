/** Server-sent events: the printer SendSSE (dot_flush.go) and a reader written from sections
    9.2.5 and 9.2.6 of the WHATWG HTML Living Standard. */
module EventStream {
  import opened Text

  // ----- The printer -----

  datatype Message = Message(event: string, data: string, id: string, retry: string)

  function ArgOr(args: seq<string>, i: nat): string {
    if i < |args| then args[i] else ""
  }

  function FromArgs(args: seq<string>): Message {
    Message(ArgOr(args, 0), ArgOr(args, 1), ArgOr(args, 2), ArgOr(args, 3))
  }

  /** strings.SplitN(s, "\n", 2)[0] */
  function FirstLine(s: string): string {
    Split(s, '\n')[0]
  }

  function Prefixed(prefix: string, lines: seq<string>): seq<string> {
    if lines == [] then [] else [prefix + lines[0]] + Prefixed(prefix, lines[1..])
  }

  /** A field with a one-line value, left out when the argument is empty. */
  function OptionalLine(name: string, arg: string): seq<string> {
    if arg == "" then [] else [name + ": " + FirstLine(arg)]
  }

  function DataLines(data: string): seq<string> {
    if data == "" then [] else Prefixed("data: ", Split(data, '\n'))
  }

  /** The field lines of a message. */
  function FieldLines(m: Message): seq<string> {
    OptionalLine("event", m.event) + DataLines(m.data) + OptionalLine("id", m.id) + OptionalLine("retry", m.retry)
  }

  /** All lines of one call: the fields and two empty lines, or nothing. */
  function Written(args: seq<string>): seq<string> {
    if 1 <= |args| <= 4 && FieldLines(FromArgs(args)) != [] then FieldLines(FromArgs(args)) + ["", ""] else []
  }

  function Print(lines: seq<string>): string {
    if lines == [] then "" else lines[0] + "\n" + Print(lines[1..])
  }

  lemma {:induction false} PrintConcat(a: seq<string>, b: seq<string>)
    ensures Print(a + b) == Print(a) + Print(b)
  {
    if a == [] {
      assert a + b == b;
    } else {
      assert (a + b)[1..] == a[1..] + b;
      PrintConcat(a[1..], b);
    }
  }

  lemma {:induction false} PrefixedConcat(prefix: string, a: seq<string>, b: seq<string>)
    ensures Prefixed(prefix, a + b) == Prefixed(prefix, a) + Prefixed(prefix, b)
  {
    if a == [] {
      assert a + b == b;
    } else {
      assert (a + b)[1..] == a[1..] + b;
      PrefixedConcat(prefix, a[1..], b);
    }
  }

  lemma PrintOne(line: string)
    ensures Print([line]) == line + "\n"
  {
    var lines := [line];
    assert Print(lines[1..]) == "";
  }

  lemma PrefixedSnoc(prefix: string, lines: seq<string>, i: nat)
    requires i < |lines|
    ensures Prefixed(prefix, lines[..i + 1]) == Prefixed(prefix, lines[..i]) + [prefix + lines[i]]
  {
    var last := [lines[i]];
    assert lines[..i + 1] == lines[..i] + last;
    PrefixedConcat(prefix, lines[..i], last);
    assert Prefixed(prefix, last[1..]) == [];
  }

  lemma PrintFields(m: Message, before: string)
    ensures before + Print(OptionalLine("event", m.event)) + Print(DataLines(m.data))
            + Print(OptionalLine("id", m.id)) + Print(OptionalLine("retry", m.retry))
         == before + Print(FieldLines(m))
    ensures FieldLines(m) == [] <==> m == Message("", "", "", "")
  {
    var a, b, c, d := OptionalLine("event", m.event), DataLines(m.data), OptionalLine("id", m.id), OptionalLine("retry", m.retry);
    PrintConcat(a, b);
    PrintConcat(a + b, c);
    PrintConcat(a + b + c, d);
    ConcatAssociates(before, Print(a), Print(b), Print(c), Print(d));
  }

  lemma ConcatAssociates(o: string, a: string, b: string, c: string, d: string)
    ensures o + a + b + c + d == o + (a + b + c + d)
  {
  }

  lemma PrintWritten(args: seq<string>, before: string)
    requires 1 <= |args| <= 4
    ensures var f := FieldLines(FromArgs(args));
            before + Print(Written(args)) == before + Print(f) + if f == [] then "" else "\n\n"
  {
    var f := FieldLines(FromArgs(args));
    PrintConcat(f, ["", ""]);
    PrintConcat([""], [""]);
    PrintOne("");
    assert [""] + [""] == ["", ""];
    assert before + (Print(f) + "\n\n") == before + Print(f) + "\n\n";
  }

  /** The response writer of a flushing handler. */
  class Flusher {
    var sent: string
    var flushes: nat

    method WriteLine(line: string)
      modifies this`sent
      ensures sent == old(sent) + Print([line])
    {
      sent := sent + line + "\n";
      PrintOne(line);
    }

    /** One of the fields of which only the first line is sent. */
    method WriteFirst(name: string, arg: string) returns (written: bool)
      modifies this`sent
      ensures sent == old(sent) + Print(OptionalLine(name, arg))
      ensures written <==> arg != ""
    {
      written := arg != "";
      if arg != "" {
        WriteLine(name + ": " + FirstLine(arg));
      }
    }

    method WriteData(data: string) returns (written: bool)
      modifies this`sent
      ensures sent == old(sent) + Print(DataLines(data))
      ensures written <==> data != ""
    {
      written := false;
      if data != "" {
        var lines := Split(data, '\n');
        for i := 0 to |lines|
          invariant sent == old(sent) + Print(Prefixed("data: ", lines[..i]))
          invariant written <==> i > 0
        {
          PrefixedSnoc("data: ", lines, i);
          PrintConcat(Prefixed("data: ", lines[..i]), ["data: " + lines[i]]);
          WriteLine("data: " + lines[i]);
          written := true;
        }
        assert lines[..|lines|] == lines;
      }
    }

    method WriteFields(m: Message) returns (written: bool)
      modifies this`sent
      ensures sent == old(sent) + Print(FieldLines(m))
      ensures written <==> FieldLines(m) != []
    {
      var w1 := WriteFirst("event", m.event);
      var w2 := WriteData(m.data);
      var w3 := WriteFirst("id", m.id);
      var w4 := WriteFirst("retry", m.retry);
      PrintFields(m, old(sent));
      written := w1 || w2 || w3 || w4;
    }

    method SendSSE(args: seq<string>) returns (ok: bool)
      modifies this
      ensures ok <==> 1 <= |args| <= 4
      ensures sent == old(sent) + Print(Written(args))
      ensures flushes == old(flushes) + if Written(args) != [] then 1 else 0
    {
      if |args| < 1 || |args| > 4 {
        return false;
      }
      var data, id, retry := "", "", "";
      if |args| >= 2 { data := args[1]; }
      if |args| >= 3 { id := args[2]; }
      if |args| == 4 { retry := args[3]; }
      var m := Message(args[0], data, id, retry);
      assert m == FromArgs(args);
      var written := WriteFields(m);
      PrintWritten(args, old(sent));
      if written {
        sent := sent + "\n\n";
        flushes := flushes + 1;
      }
      ok := true;
    }
  }

  // ----- The reader -----

  const BOM := '\U{FEFF}'

  /** Complete lines, ended by CR LF, LF or CR; `cur` is the line read so far. */
  function LinesFrom(s: string, cur: string): seq<string>
    decreases |s|
  {
    if s == "" then []
    else if s[0] == '\r' then [cur] + LinesFrom(if |s| > 1 && s[1] == '\n' then s[2..] else s[1..], "")
    else if s[0] == '\n' then [cur] + LinesFrom(s[1..], "")
    else LinesFrom(s[1..], cur + [s[0]])
  }

  function Lines(s: string): seq<string> {
    LinesFrom(if s != "" && s[0] == BOM then s[1..] else s, "")
  }

  datatype Event = Event(kind: string, data: string, lastId: string)

  /** The buffers of section 9.2.6, the reconnection time as its digits, and the events dispatched. */
  datatype Reader = Reader(data: string, event: string, id: string, retry: string, dispatched: seq<Event>)

  const FreshReader := Reader("", "", "", "", [])

  function Colon(line: string, from: nat := 0): (i: nat)
    requires from <= |line|
    ensures from <= i <= |line|
    ensures i < |line| ==> line[i] == ':'
    ensures forall j :: from <= j < i ==> line[j] != ':'
    decreases |line| - from
  {
    if from == |line| || line[from] == ':' then from else Colon(line, from + 1)
  }

  predicate Digits(s: string) {
    s != "" && forall i :: 0 <= i < |s| ==> '0' <= s[i] <= '9'
  }

  function SetField(r: Reader, name: string, value: string): Reader {
    if name == "event" then r.(event := value)
    else if name == "data" then r.(data := r.data + value + "\n")
    else if name == "id" then (if Free(value, '\0') then r.(id := value) else r)
    else if name == "retry" then (if Digits(value) then r.(retry := value) else r)
    else r
  }

  function Dispatch(r: Reader): Reader {
    if r.data == "" then r.(event := "")
    else
      var data := if r.data[|r.data| - 1] == '\n' then r.data[..|r.data| - 1] else r.data;
      r.(data := "", event := "",
         dispatched := r.dispatched + [Event(if r.event == "" then "message" else r.event, data, r.id)])
  }

  function ReadLine(r: Reader, line: string): Reader {
    if line == "" then Dispatch(r)
    else
      var i := Colon(line);
      if i == 0 then r  // a comment
      else if i == |line| then SetField(r, line, "")
      else
        var value := line[i + 1..];
        SetField(r, line[..i], if value != "" && value[0] == ' ' then value[1..] else value)
  }

  function ReadLines(r: Reader, lines: seq<string>): Reader
    decreases lines
  {
    if lines == [] then r else ReadLines(ReadLine(r, lines[0]), lines[1..])
  }

  function Read(s: string): Reader {
    ReadLines(FreshReader, Lines(s))
  }

  // ----- What a sequence of calls means -----

  /** All bytes written by a sequence of calls. */
  function Stream(calls: seq<seq<string>>): string {
    if calls == [] then "" else Print(Written(calls[0])) + Stream(calls[1..])
  }

  /** Each call with data is one event: its type is the first line of the event argument, its
      data the data argument, and its id the first line of the last id given so far. */
  function Expected(r: Reader, calls: seq<seq<string>>): Reader
    decreases calls
  {
    if calls == [] then r else Expected(Deliver(r, calls[0]), calls[1..])
  }

  function Deliver(r: Reader, args: seq<string>): Reader {
    if !(1 <= |args| <= 4) then r
    else
      var m := FromArgs(args);
      var id := if m.id == "" then r.id else FirstLine(m.id);
      var retry := if m.retry != "" && Digits(FirstLine(m.retry)) then FirstLine(m.retry) else r.retry;
      var kind := if m.event == "" || FirstLine(m.event) == "" then "message" else FirstLine(m.event);
      r.(id := id, retry := retry,
         dispatched := r.dispatched + (if m.data == "" then [] else [Event(kind, m.data, id)]))
  }

  predicate Idle(r: Reader) {
    r.data == "" && r.event == ""
  }

  // ----- Lines survive printing -----

  predicate PlainLine(line: string) {
    Free(line, '\n') && Free(line, '\r')
  }

  predicate PlainLines(lines: seq<string>) {
    forall i :: 0 <= i < |lines| ==> PlainLine(lines[i])
  }

  lemma {:induction false} LinesOfLine(line: string, rest: string, cur: string)
    requires PlainLine(line)
    ensures LinesFrom(line + "\n" + rest, cur) == [cur + line] + LinesFrom(rest, "")
    decreases line
  {
    var s := line + "\n" + rest;
    if line == "" {
      assert s[1..] == rest && cur + line == cur;
    } else {
      assert s[1..] == line[1..] + "\n" + rest;
      LinesOfLine(line[1..], rest, cur + [line[0]]);
      assert cur + [line[0]] + line[1..] == cur + line;
    }
  }

  lemma {:induction false} LinesOfPrint(lines: seq<string>, rest: string)
    requires PlainLines(lines)
    ensures LinesFrom(Print(lines) + rest, "") == lines + LinesFrom(rest, "")
  {
    if lines == [] {
      assert Print(lines) + rest == rest;
    } else {
      LinesOfPrint(lines[1..], rest);
      LinesOfLine(lines[0], Print(lines[1..]) + rest, "");
      assert Print(lines) + rest == lines[0] + "\n" + (Print(lines[1..]) + rest);
      assert "" + lines[0] == lines[0];
    }
  }

  /** No line of any stream holds a CR or LF. */
  lemma {:induction false} LinesPlain(s: string, cur: string)
    requires PlainLine(cur)
    ensures PlainLines(LinesFrom(s, cur))
    decreases |s|
  {
    if s != "" {
      if s[0] == '\r' {
        LinesPlain(if |s| > 1 && s[1] == '\n' then s[2..] else s[1..], "");
      } else if s[0] == '\n' {
        LinesPlain(s[1..], "");
      } else {
        LinesPlain(s[1..], cur + [s[0]]);
      }
    }
  }

  // ----- Reading back one call -----

  /** A field line is read as that field with exactly the value printed. */
  lemma ReadField(r: Reader, name: string, value: string)
    requires name != "" && Free(name, ':')
    ensures ReadLine(r, name + ": " + value) == SetField(r, name, value)
  {
    var line := name + ": " + value;
    assert line[|name|] == ':' && forall j :: 0 <= j < |name| ==> line[j] == name[j];
    assert Colon(line) == |name|;
    assert line[..|name|] == name && line[|name| + 1..] == " " + value;
    assert (" " + value)[1..] == value;
  }

  lemma {:induction false} ReadLinesConcat(r: Reader, a: seq<string>, b: seq<string>)
    ensures ReadLines(r, a + b) == ReadLines(ReadLines(r, a), b)
    decreases a
  {
    if a == [] {
      assert a + b == b;
    } else {
      assert (a + b)[1..] == a[1..] + b;
      ReadLinesConcat(ReadLine(r, a[0]), a[1..], b);
    }
  }

  lemma ReadOne(r: Reader, line: string)
    ensures ReadLines(r, [line]) == ReadLine(r, line)
  {
    assert [line][1..] == [];
  }

  /** The data lines put the pieces back together. */
  lemma {:induction false} ReadData(r: Reader, parts: seq<string>)
    requires parts != []
    ensures ReadLines(r, Prefixed("data: ", parts)) == r.(data := r.data + Text.Join(parts, '\n') + "\n")
    decreases parts
  {
    var lines := Prefixed("data: ", parts);
    ReadField(r, "data", parts[0]);
    assert "data" + ": " + parts[0] == "data: " + parts[0];
    var next := r.(data := r.data + parts[0] + "\n");
    if |parts| == 1 {
      assert Prefixed("data: ", parts[1..]) == [];
      assert lines[1..] == [];
    } else {
      assert lines[1..] == Prefixed("data: ", parts[1..]);
      ReadData(next, parts[1..]);
      assert r.data + parts[0] + "\n" + Text.Join(parts[1..], '\n') == r.data + (parts[0] + "\n" + Text.Join(parts[1..], '\n'));
    }
  }
}
