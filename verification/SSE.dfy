/** The server-sent-events reader (sections 9.2.5 and 9.2.6 of the WHATWG HTML Living Standard),
    with the printer it inverts. The stream may break off with a read error, and a line may be too
    long for the scanner's buffer. */
module ServerSentEvents {

  datatype SSEEvent = SSEEvent(event: string, data: string)

  datatype Outcome = Event(event: SSEEvent) | EOF | ReadError

  // ---------------------------------------------------------------------------------------------
  // Lines of a text
  // ---------------------------------------------------------------------------------------------

  /** Up to the first newline. */
  function Before(s: string): string {
    if s == "" || s[0] == '\n' then "" else [s[0]] + Before(s[1..])
  }

  /** What follows the first newline. */
  function After(s: string): (r: string)
    ensures s != "" ==> |r| < |s|
    ensures s == "" ==> r == ""
  {
    if s == "" then "" else if s[0] == '\n' then s[1..] else After(s[1..])
  }

  function DropCR(line: string): string {
    if line != "" && line[|line| - 1] == '\r' then line[..|line| - 1] else line
  }

  /** The lines the scanner delivers: up to the first that leaves no room in a buffer of this size. */
  function Lines(s: string, buffer: nat): seq<string>
    decreases |s|
  {
    if s == "" || |Before(s)| >= buffer then [] else [DropCR(Before(s))] + Lines(After(s), buffer)
  }

  /** The scanner comes to the end of the text without an error. */
  predicate Fits(s: string, buffer: nat)
    decreases |s|
  {
    s == "" || (|Before(s)| < buffer && Fits(After(s), buffer))
  }

  function Text(lines: seq<string>): string {
    if lines == [] then "" else lines[0] + "\n" + Text(lines[1..])
  }

  ghost predicate Printable(line: string, buffer: nat) {
    '\n' !in line && !(line != "" && line[|line| - 1] == '\r') && |line| < buffer
  }

  ghost predicate AllPrintable(lines: seq<string>, buffer: nat) {
    forall i :: 0 <= i < |lines| ==> Printable(lines[i], buffer)
  }

  lemma {:induction false} CutAtNewline(line: string, rest: string)
    requires '\n' !in line
    ensures Before(line + "\n" + rest) == line && After(line + "\n" + rest) == rest
  {
    var s := line + "\n" + rest;
    if line == "" {
      assert s[1..] == rest;
    } else {
      assert s[1..] == line[1..] + "\n" + rest;
      CutAtNewline(line[1..], rest);
      assert [line[0]] + line[1..] == line;
    }
  }

  lemma {:induction false} LinesInvertText(lines: seq<string>, buffer: nat)
    requires AllPrintable(lines, buffer)
    ensures Lines(Text(lines), buffer) == lines && Fits(Text(lines), buffer)
  {
    if lines != [] {
      CutAtNewline(lines[0], Text(lines[1..]));
      LinesInvertText(lines[1..], buffer);
    }
  }

  function TextCRLF(lines: seq<string>): string {
    if lines == [] then "" else lines[0] + "\r\n" + TextCRLF(lines[1..])
  }

  /** Lines ended by CRLF are delivered without it; any CR before it is the line's own. */
  lemma {:induction false} LinesInvertCRLF(lines: seq<string>, buffer: nat)
    requires forall i :: 0 <= i < |lines| ==> '\n' !in lines[i] && |lines[i]| + 1 < buffer
    ensures Lines(TextCRLF(lines), buffer) == lines && Fits(TextCRLF(lines), buffer)
  {
    if lines != [] {
      var line, rest := lines[0] + "\r", TextCRLF(lines[1..]);
      assert TextCRLF(lines) == line + "\n" + rest;
      CutAtNewline(line, rest);
      assert line[..|line| - 1] == lines[0];
      LinesInvertCRLF(lines[1..], buffer);
    }
  }

  lemma {:induction false} NoNewline(s: string)
    requires '\n' !in s
    ensures Before(s) == s && After(s) == ""
  {
    if s != "" {
      NoNewline(s[1..]);
      assert [s[0]] + s[1..] == s;
    }
  }

  lemma OneLine(line: string, buffer: nat)
    requires Printable(line, buffer) && line != ""
    ensures Lines(line, buffer) == [line] && Fits(line, buffer)
  {
    NoNewline(line);
    assert Lines("", buffer) == [];
  }

  lemma FirstLine(line: string, rest: string, buffer: nat)
    requires Printable(line, buffer)
    ensures Lines(line + "\n" + rest, buffer) == [line] + Lines(rest, buffer)
    ensures Fits(line + "\n" + rest, buffer) <==> Fits(rest, buffer)
  {
    CutAtNewline(line, rest);
  }

  lemma TextCons(lines: seq<string>, tail: string) returns (rest: string)
    requires lines != []
    ensures rest == Text(lines[1..]) + tail && Text(lines) + tail == lines[0] + "\n" + rest
  {
    rest := Text(lines[1..]) + tail;
  }

  /** Printed lines are delivered first, whatever follows. */
  lemma {:induction false} LinesOfPrint(lines: seq<string>, tail: string, s: string, buffer: nat)
    requires AllPrintable(lines, buffer) && s == Text(lines) + tail
    ensures Lines(s, buffer) == lines + Lines(tail, buffer)
    ensures Fits(s, buffer) <==> Fits(tail, buffer)
  {
    if lines == [] {
      assert s == tail;
    } else {
      var rest := TextCons(lines, tail);
      LinesOfPrint(lines[1..], tail, rest, buffer);
      FirstLine(lines[0], rest, buffer);
    }
  }

  /** A last line without its newline is delivered too. */
  lemma LastLineUnterminated(lines: seq<string>, last: string, buffer: nat)
    requires AllPrintable(lines, buffer) && Printable(last, buffer) && last != ""
    ensures Lines(Text(lines) + last, buffer) == lines + [last] && Fits(Text(lines) + last, buffer)
  {
    LinesOfPrint(lines, last, Text(lines) + last, buffer);
    OneLine(last, buffer);
  }

  lemma {:induction false} LongStart(long: string, rest: string)
    requires '\n' !in long
    ensures |Before(long + rest)| >= |long|
  {
    if long != "" {
      assert (long + rest)[1..] == long[1..] + rest;
      LongStart(long[1..], rest);
    }
  }

  /** A line too long for the buffer ends the reading there, with an error. */
  lemma {:induction false} LongLineCutsOff(lines: seq<string>, long: string, rest: string, buffer: nat)
    requires AllPrintable(lines, buffer) && '\n' !in long && |long| >= buffer > 0
    ensures Lines(Text(lines) + long + rest, buffer) == lines && !Fits(Text(lines) + long + rest, buffer)
  {
    var s := Text(lines) + long + rest;
    if lines == [] {
      assert s == long + rest;
      LongStart(long, rest);
    } else {
      var tail := Text(lines[1..]) + long + rest;
      assert s == lines[0] + "\n" + tail;
      CutAtNewline(lines[0], tail);
      LongLineCutsOff(lines[1..], long, rest, buffer);
    }
  }

  // ---------------------------------------------------------------------------------------------
  // The reader
  // ---------------------------------------------------------------------------------------------

  predicate HasPrefix(s: string, p: string) {
    p <= s
  }

  function TrimOneLeadingSpace(s: string): string {
    if HasPrefix(s, " ") then s[1..] else s
  }

  datatype Pending = Pending(event: SSEEvent, hasFields: bool)

  const NOTHING := Pending(SSEEvent("", ""), false)

  function AddData(data: string, value: string): string {
    (if data != "" then data + "\n" else data) + value
  }

  /** What a line that is not blank does to the event under construction. */
  function Feed(p: Pending, line: string): Pending {
    if HasPrefix(line, "event:") then Pending(p.event.(event := TrimOneLeadingSpace(line[6..])), true)
    else if HasPrefix(line, "data:") then Pending(p.event.(data := AddData(p.event.data, TrimOneLeadingSpace(line[5..]))), true)
    else p
  }

  /** What a field line does, with one space after its colon or none: the event name is replaced, data is
      joined by newlines to earlier data. A value of its own leading space needs the extra one. */
  lemma FieldExact(p: Pending, value: string)
    ensures Feed(p, "event: " + value) == Pending(SSEEvent(value, p.event.data), true)
    ensures Feed(p, "data: " + value) == Pending(SSEEvent(p.event.event, if p.event.data == "" then value else p.event.data + "\n" + value), true)
    ensures !(" " <= value) ==> Feed(p, "event:" + value) == Feed(p, "event: " + value) && Feed(p, "data:" + value) == Feed(p, "data: " + value)
  {
    var e, d := "event: " + value, "data: " + value;
    assert e[6..] == " " + value && e[6..][1..] == value && "event:" <= e;
    assert d[5..] == " " + value && d[5..][1..] == value && "data:" <= d && d[0] == 'd';
    var e', d' := "event:" + value, "data:" + value;
    assert e'[6..] == value && d'[5..] == value && d'[0] == 'd';
  }

  /** The next event, and the lines after it; `clean` tells whether the lines end without an error. */
  function NextFrom(p: Pending, lines: seq<string>, clean: bool): (r: (Outcome, seq<string>))
    ensures |r.1| <= |lines|
    ensures r.0.Event? && !p.hasFields ==> |r.1| < |lines|
    decreases |lines|
  {
    if lines == [] then (if !clean then ReadError else if p.hasFields then Event(p.event) else EOF, [])
    else if lines[0] == "" then
      if p.hasFields then (Event(p.event), lines[1..]) else NextFrom(p, lines[1..], clean)
    else NextFrom(Feed(p, lines[0]), lines[1..], clean)
  }

  /** The events read before the end or the error. */
  function ReadAll(lines: seq<string>, clean: bool): seq<SSEEvent>
    decreases |lines|
  {
    var (o, rest) := NextFrom(NOTHING, lines, clean);
    if o.Event? then [o.event] + ReadAll(rest, clean) else []
  }

  /** How reading ends: with the error if there is one, whatever has been collected; else with the event under
      construction, and then the end. */
  lemma EndExact(p: Pending, clean: bool)
    ensures !clean ==> NextFrom(p, [], clean) == (ReadError, [])
    ensures clean && p.hasFields ==> NextFrom(p, [], clean) == (Event(p.event), [])
    ensures clean && !p.hasFields ==> NextFrom(p, [], clean) == (EOF, [])
  {
  }

  /** Blank lines between events are nothing. */
  lemma BlankIgnored(lines: seq<string>, clean: bool)
    ensures NextFrom(NOTHING, [""] + lines, clean) == NextFrom(NOTHING, lines, clean)
    ensures ReadAll([""] + lines, clean) == ReadAll(lines, clean)
  {
    assert ([""] + lines)[1..] == lines;
  }

  class SSEReader {
    var rest: string
    const buffer: nat
    const broken: bool

    /** `broken` tells that the input ends in a read error. */
    constructor (input: string, buffer: nat, broken: bool)
      ensures rest == input && this.buffer == buffer && this.broken == broken
    {
      rest, this.buffer, this.broken := input, buffer, broken;
    }

    predicate Clean()
      reads this
    {
      Fits(rest, buffer) && !broken
    }

    method Scan() returns (ok: bool, line: string)
      modifies this
      ensures ok == (old(Lines(rest, buffer)) != []) && Clean() == old(Clean())
      ensures ok ==> [line] + Lines(rest, buffer) == old(Lines(rest, buffer)) && |rest| < |old(rest)|
      ensures !ok ==> rest == old(rest)
    {
      if rest == "" || |Before(rest)| >= buffer {
        return false, "";
      }
      ok, line := true, DropCR(Before(rest));
      rest := After(rest);
    }

    /** The scanner's error after it has stopped. */
    method Err() returns (failed: bool)
      requires Lines(rest, buffer) == []
      ensures failed == !Clean()
    {
      failed := rest != "" || broken;
    }

    method Next() returns (r: Outcome)
      modifies this
      ensures (r, Lines(rest, buffer)) == NextFrom(NOTHING, old(Lines(rest, buffer)), old(Clean()))
      ensures Clean() == old(Clean())
    {
      var event := SSEEvent("", "");
      var hasFields := false;
      ghost var clean := Clean();
      ghost var goal := NextFrom(NOTHING, Lines(rest, buffer), clean);
      var ok, line := Scan();
      while ok
        invariant Clean() == clean
        invariant ok ==> goal == NextFrom(Pending(event, hasFields), [line] + Lines(rest, buffer), clean)
        invariant !ok ==> Lines(rest, buffer) == [] && goal == NextFrom(Pending(event, hasFields), [], clean)
        decreases ok, |rest|
      {
        assert ([line] + Lines(rest, buffer))[1..] == Lines(rest, buffer);
        if line == "" {
          if hasFields {
            return Event(event);
          }
        } else if HasPrefix(line, "event:") {
          event := event.(event := TrimOneLeadingSpace(line[6..]));
          hasFields := true;
        } else if HasPrefix(line, "data:") {
          if event.data != "" {
            event := event.(data := event.data + "\n");
          }
          event := event.(data := event.data + TrimOneLeadingSpace(line[5..]));
          hasFields := true;
        }
        assert goal == NextFrom(Pending(event, hasFields), Lines(rest, buffer), clean);
        ok, line := Scan();
      }
      var failed := Err();
      if failed {
        return ReadError;
      }
      r := if hasFields then Event(event) else EOF;
    }
  }

  // ---------------------------------------------------------------------------------------------
  // The printer
  // ---------------------------------------------------------------------------------------------

  /** The lines of a value: one more than it has newlines. */
  function Split(s: string): (r: seq<string>)
    ensures r != []
    decreases |s|
  {
    if '\n' !in s then [s] else [Before(s)] + Split(After(s))
  }

  function DataLines(pieces: seq<string>): (r: seq<string>)
    ensures |r| == |pieces| && forall i :: 0 <= i < |r| ==> r[i] == "data: " + pieces[i]
  {
    if pieces == [] then [] else ["data: " + pieces[0]] + DataLines(pieces[1..])
  }

  /** The field lines of an event, without the blank line that ends it. */
  function FieldLines(e: SSEEvent): seq<string> {
    (if e.event != "" then ["event: " + e.event] else []) + DataLines(Split(e.data))
  }

  function Print(es: seq<SSEEvent>): seq<string> {
    if es == [] then [] else FieldLines(es[0]) + [""] + Print(es[1..])
  }

  function StripNewlines(s: string): string {
    if s != "" && s[0] == '\n' then StripNewlines(s[1..]) else s
  }

  /** What reading gives back for an event: leading newlines of its data are lost. */
  function ReadBack(e: SSEEvent): SSEEvent {
    e.(data := StripNewlines(e.data))
  }

  function ReadBackAll(es: seq<SSEEvent>): seq<SSEEvent> {
    if es == [] then [] else [ReadBack(es[0])] + ReadBackAll(es[1..])
  }

  // ---------------------------------------------------------------------------------------------
  // Data lines
  // ---------------------------------------------------------------------------------------------

  function Join(data: string, pieces: seq<string>): string
    decreases |pieces|
  {
    if pieces == [] then data else Join(AddData(data, pieces[0]), pieces[1..])
  }

  lemma {:induction false} CutRejoins(s: string)
    requires '\n' in s
    ensures s == Before(s) + "\n" + After(s) && '\n' !in Before(s)
  {
    if s[0] != '\n' {
      assert '\n' in s[1..];
      CutRejoins(s[1..]);
      assert s == [s[0]] + s[1..];
    }
  }

  lemma {:induction false} JoinContinues(data: string, s: string)
    requires data != ""
    ensures Join(data, Split(s)) == data + "\n" + s
    decreases |s|
  {
    if '\n' in s {
      CutRejoins(s);
      var data' := data + "\n" + Before(s);
      JoinContinues(data', After(s));
      assert ([Before(s)] + Split(After(s)))[1..] == Split(After(s));
      assert data' + "\n" + After(s) == data + "\n" + s;
    }
  }

  lemma {:induction false} JoinFromEmpty(s: string)
    ensures Join("", Split(s)) == StripNewlines(s)
    decreases |s|
  {
    if '\n' in s {
      CutRejoins(s);
      assert ([Before(s)] + Split(After(s)))[1..] == Split(After(s));
      assert AddData("", Before(s)) == Before(s);
      if Before(s) == "" {
        assert s[0] == '\n' && s[1..] == After(s);
        JoinFromEmpty(After(s));
      } else {
        JoinContinues(Before(s), After(s));
        assert s[0] == Before(s)[0];
      }
    } else {
      assert AddData("", s) == s;
    }
  }

  lemma {:induction false} FeedData(p: Pending, pieces: seq<string>, rest: seq<string>, clean: bool)
    requires pieces != []
    ensures NextFrom(p, DataLines(pieces) + rest, clean) == NextFrom(Pending(p.event.(data := Join(p.event.data, pieces)), true), rest, clean)
    decreases |pieces|
  {
    var line := "data: " + pieces[0];
    var lines := DataLines(pieces) + rest;
    assert line[..6] == "data: " && line[0] == 'd' && HasPrefix(line, "data:");
    assert line[5..] == " " + pieces[0] && line[5..][1..] == pieces[0];
    var p' := Feed(p, line);
    assert p' == Pending(p.event.(data := AddData(p.event.data, pieces[0])), true);
    assert lines[0] == line && lines[1..] == DataLines(pieces[1..]) + rest;
    if |pieces| > 1 {
      FeedData(p', pieces[1..], rest, clean);
    } else {
      assert DataLines(pieces[1..]) + rest == rest;
    }
  }

  lemma FeedName(name: string, rest: seq<string>, clean: bool)
    ensures NextFrom(NOTHING, ["event: " + name] + rest, clean) == NextFrom(Pending(SSEEvent(name, ""), true), rest, clean)
  {
    var line := "event: " + name;
    assert line[..6] == "event:" && HasPrefix(line, "event:");
    assert line[6..] == " " + name && line[6..][1..] == name;
    assert ([line] + rest)[1..] == rest;
  }

  /** The fields of one event are collected into what reading gives back. */
  lemma FeedFields(e: SSEEvent, rest: seq<string>, clean: bool)
    ensures NextFrom(NOTHING, FieldLines(e) + rest, clean) == NextFrom(Pending(ReadBack(e), true), rest, clean)
  {
    var data := DataLines(Split(e.data));
    JoinFromEmpty(e.data);
    if e.event == "" {
      assert FieldLines(e) == data;
      FeedData(NOTHING, Split(e.data), rest, clean);
    } else {
      assert FieldLines(e) + rest == ["event: " + e.event] + (data + rest);
      FeedName(e.event, data + rest, clean);
      FeedData(Pending(SSEEvent(e.event, ""), true), Split(e.data), rest, clean);
    }
  }

  // ---------------------------------------------------------------------------------------------
  // Noise
  // ---------------------------------------------------------------------------------------------

  /** Comments, id and retry fields, and any other line the reader skips. */
  predicate IsNoise(line: string) {
    line != "" && !HasPrefix(line, "event:") && !HasPrefix(line, "data:")
  }

  function Denoise(lines: seq<string>): (r: seq<string>)
    ensures |r| <= |lines|
  {
    if lines == [] then []
    else if IsNoise(lines[0]) then Denoise(lines[1..])
    else [lines[0]] + Denoise(lines[1..])
  }

  lemma {:induction false} NoiseIgnored(p: Pending, lines: seq<string>, clean: bool)
    ensures NextFrom(p, Denoise(lines), clean).0 == NextFrom(p, lines, clean).0
    ensures NextFrom(p, Denoise(lines), clean).1 == Denoise(NextFrom(p, lines, clean).1)
    decreases |lines|
  {
    if lines != [] {
      if !IsNoise(lines[0]) {
        assert Denoise(lines)[1..] == Denoise(lines[1..]);
      }
      NoiseIgnored(p, lines[1..], clean);
      NoiseIgnored(Feed(p, lines[0]), lines[1..], clean);
    }
  }

  lemma {:induction false} ReadAllIgnoresNoise(lines: seq<string>, clean: bool)
    ensures ReadAll(lines, clean) == ReadAll(Denoise(lines), clean)
    decreases |lines|
  {
    NoiseIgnored(NOTHING, lines, clean);
    var (o, rest) := NextFrom(NOTHING, lines, clean);
    if o.Event? {
      ReadAllIgnoresNoise(rest, clean);
    }
  }

  // ---------------------------------------------------------------------------------------------
  // Round trips
  // ---------------------------------------------------------------------------------------------

  lemma ReadOne(e: SSEEvent, rest: seq<string>, clean: bool)
    ensures ReadAll(FieldLines(e) + ([""] + rest), clean) == [ReadBack(e)] + ReadAll(rest, clean)
    ensures ReadAll(FieldLines(e), clean) == if clean then [ReadBack(e)] else []
  {
    FeedFields(e, [""] + rest, clean);
    assert ([""] + rest)[1..] == rest;
    FeedFields(e, [], clean);
    assert FieldLines(e) + [] == FieldLines(e);
    assert ReadAll([], clean) == [];
  }

  /** A whole print is read whole, also when an error follows it. */
  lemma {:induction false} ReadPrinted(es: seq<SSEEvent>, clean: bool)
    ensures ReadAll(Print(es), clean) == ReadBackAll(es)
  {
    if es != [] {
      ReadPrinted(es[1..], clean);
      ReadOne(es[0], Print(es[1..]), clean);
      assert Print(es) == FieldLines(es[0]) + ([""] + Print(es[1..]));
    }
  }

  /** The print without its last line, which is blank. */
  function Unfinished(es: seq<SSEEvent>): seq<string>
    requires es != []
  {
    if |es| == 1 then FieldLines(es[0]) else FieldLines(es[0]) + [""] + Unfinished(es[1..])
  }

  lemma {:induction false} UnfinishedIsPrint(es: seq<SSEEvent>)
    requires es != []
    ensures Print(es) == Unfinished(es) + [""]
  {
    if |es| == 1 {
      assert es[1..] == [];
    } else {
      UnfinishedIsPrint(es[1..]);
    }
  }

  /** Without the final blank line, the last event is still read at the end of the stream, and lost if
      the stream ends in an error instead. */
  lemma {:induction false} ReadUnfinished(es: seq<SSEEvent>, clean: bool)
    requires es != []
    ensures ReadAll(Unfinished(es), clean) == ReadBackAll(if clean then es else es[..|es| - 1])
  {
    if |es| == 1 {
      ReadOne(es[0], [], clean);
      assert es[1..] == [];
    } else {
      var rest := es[1..];
      ReadUnfinished(rest, clean);
      ReadOne(es[0], Unfinished(rest), clean);
      assert Unfinished(es) == FieldLines(es[0]) + ([""] + Unfinished(rest));
      assert es[..|es| - 1][1..] == rest[..|rest| - 1];
    }
  }

  /** The stream is a print of the events, with or without its final blank line, and with lines the
      reader skips inserted anywhere. */
  ghost predicate Carries(lines: seq<string>, es: seq<SSEEvent>) {
    var clean := Denoise(lines);
    clean == Print(es) || clean + [""] == Print(es)
  }

  /** Reading any such text yields the events, each without the leading newlines of its data. */
  lemma ReadCarried(lines: seq<string>, es: seq<SSEEvent>, buffer: nat)
    requires AllPrintable(lines, buffer) && Carries(lines, es)
    ensures Fits(Text(lines), buffer) && ReadAll(Lines(Text(lines), buffer), true) == ReadBackAll(es)
  {
    LinesInvertText(lines, buffer);
    ReadAllIgnoresNoise(lines, true);
    ReadPrinted(es, true);
    if es != [] {
      UnfinishedIsPrint(es);
      ReadUnfinished(es, true);
      assert Denoise(lines) + [""] == Print(es) ==> Denoise(lines) == (Denoise(lines) + [""])[..|Denoise(lines)|] == Unfinished(es);
    }
  }

  /** If an error follows instead of the end, exactly the events closed by their blank line are read. */
  lemma ReadBroken(lines: seq<string>, es: seq<SSEEvent>, buffer: nat)
    requires AllPrintable(lines, buffer) && Carries(lines, es)
    ensures var closed := Denoise(lines) == Print(es);
            ReadAll(Lines(Text(lines), buffer), false) == ReadBackAll(if closed || es == [] then es else es[..|es| - 1])
  {
    LinesInvertText(lines, buffer);
    ReadAllIgnoresNoise(lines, false);
    ReadPrinted(es, false);
    if es != [] {
      UnfinishedIsPrint(es);
      ReadUnfinished(es, false);
      assert Denoise(lines) + [""] == Print(es) ==> Denoise(lines) == (Denoise(lines) + [""])[..|Denoise(lines)|] == Unfinished(es);
    }
  }

  lemma {:induction false} StripShortens(s: string)
    ensures |StripNewlines(s)| <= |s|
    ensures StripNewlines(s) == s <==> !(s != "" && s[0] == '\n')
  {
    if s != "" && s[0] == '\n' {
      StripShortens(s[1..]);
    }
  }

  lemma {:induction false} ReadBackExact(es: seq<SSEEvent>)
    ensures |ReadBackAll(es)| == |es|
    ensures ReadBackAll(es) == es <==> forall i :: 0 <= i < |es| ==> !HasPrefix(es[i].data, "\n")
  {
    if es != [] {
      ReadBackExact(es[1..]);
      StripShortens(es[0].data);
      assert es == [es[0]] + es[1..];
    }
  }

  /** The round trip: the very events come back iff no event's data begins with a newline. */
  lemma RoundTripExact(lines: seq<string>, es: seq<SSEEvent>, buffer: nat)
    requires AllPrintable(lines, buffer) && Carries(lines, es)
    ensures ReadAll(Lines(Text(lines), buffer), true) == es <==> forall i :: 0 <= i < |es| ==> !HasPrefix(es[i].data, "\n")
  {
    ReadCarried(lines, es, buffer);
    ReadBackExact(es);
  }

  /** The data that is lost: two events the printer tells apart and the reader does not. */
  lemma LeadingNewlineIsLost()
    ensures ReadAll(Print([SSEEvent("", "\nx")]), true) == [SSEEvent("", "x")] == ReadAll(Print([SSEEvent("", "x")]), true)
  {
    ReadPrinted([SSEEvent("", "\nx")], true);
    ReadPrinted([SSEEvent("", "x")], true);
    assert "\nx"[1..] == "x";
    assert ReadBackAll([SSEEvent("", "\nx")]) == [SSEEvent("", "x")];
  }
}
