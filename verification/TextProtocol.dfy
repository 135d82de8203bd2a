/** Base64 as in section 4 of RFC 4648, with a decoder that passes over line ends. */
module Base64 {
  import opened Common
  import opened Splitting

  type Byte = b: int | 0 <= b < 256

  function Digit(d: int): char
    requires 0 <= d < 64
  {
    if d < 26 then 'A' + d as char
    else if d < 52 then 'a' + (d - 26) as char
    else if d < 62 then '0' + (d - 52) as char
    else if d == 62 then '+' else '/'
  }

  function Value(c: char): (v: Option<int>)
    ensures v.Some? ==> 0 <= v.value < 64
  {
    if 'A' <= c <= 'Z' then Some(c as int - 'A' as int)
    else if 'a' <= c <= 'z' then Some(c as int - 'a' as int + 26)
    else if '0' <= c <= '9' then Some(c as int - '0' as int + 52)
    else if c == '+' then Some(62)
    else if c == '/' then Some(63)
    else None
  }

  function Quad(a: Byte, b: Byte, c: Byte): (q: string)
    ensures |q| == 4
  {
    [Digit(a / 4), Digit(a % 4 * 16 + b / 16), Digit(b % 16 * 4 + c / 64), Digit(c % 64)]
  }

  function Encode(data: seq<Byte>): string {
    if |data| == 0 then ""
    else if |data| == 1 then Quad(data[0], 0, 0)[..2] + "=="
    else if |data| == 2 then Quad(data[0], data[1], 0)[..3] + "="
    else Quad(data[0], data[1], data[2]) + Encode(data[3..])
  }

  function First(x: int, y: int): Byte
    requires 0 <= x < 64 && 0 <= y < 64
  {
    x * 4 + y / 16
  }

  function Second(y: int, z: int): Byte
    requires 0 <= y < 64 && 0 <= z < 64
  {
    y % 16 * 16 + z / 4
  }

  function Third(z: int, w: int): Byte
    requires 0 <= z < 64 && 0 <= w < 64
  {
    z % 4 * 64 + w
  }

  /** Padding may only end the text; the bits it leaves over are not looked at. */
  function DecodeQuads(s: string): Option<seq<Byte>> {
    if s == "" then Some([])
    else if |s| < 4 || Value(s[0]).None? || Value(s[1]).None? then None
    else
      var x, y := Value(s[0]).value, Value(s[1]).value;
      if s[2..] == "==" then Some([First(x, y)])
      else if Value(s[2]).None? then None
      else
        var z := Value(s[2]).value;
        if s[3..] == "=" then Some([First(x, y), Second(y, z)])
        else if Value(s[3]).None? then None
        else
          var rest := DecodeQuads(s[4..]);
          if rest.None? then None else Some([First(x, y), Second(y, z), Third(z, Value(s[3]).value)] + rest.value)
  }

  predicate IsLineEnd(c: char) {
    c == '\n' || c == '\r'
  }

  function WithoutLineEnds(s: string): string {
    if s == "" then "" else (if IsLineEnd(s[0]) then "" else [s[0]]) + WithoutLineEnds(s[1..])
  }

  function Decode(s: string): Option<seq<Byte>> {
    DecodeQuads(WithoutLineEnds(s))
  }

  // ----- decoding undoes encoding ---------------------------------------------------------

  predicate IsText(s: string) {
    forall c :: c in s ==> Value(c).Some? || c == '='
  }

  lemma ValueOfDigit(d: int)
    requires 0 <= d < 64
    ensures Value(Digit(d)) == Some(d)
  {
  }

  lemma QuadDecodes(a: Byte, b: Byte, c: Byte)
    ensures var q := Quad(a, b, c);
            (forall i :: 0 <= i < 4 ==> Value(q[i]).Some?) &&
            var x, y, z, w := Value(q[0]).value, Value(q[1]).value, Value(q[2]).value, Value(q[3]).value;
            First(x, y) == a && Second(y, z) == b && Third(z, w) == c
  {
    ValueOfDigit(a / 4);
    ValueOfDigit(a % 4 * 16 + b / 16);
    ValueOfDigit(b % 16 * 4 + c / 64);
    ValueOfDigit(c % 64);
    hide Digit, Value;
    assert First(a / 4, a % 4 * 16 + b / 16) == a;
    assert Second(a % 4 * 16 + b / 16, b % 16 * 4 + c / 64) == b;
    assert Third(b % 16 * 4 + c / 64, c % 64) == c;
  }

  lemma {:induction false} EncodeIsText(data: seq<Byte>)
    ensures IsText(Encode(data))
  {
    hide Quad, Value, First, Second, Third;
    if |data| > 0 {
      var q := Quad(data[0], if |data| > 1 then data[1] else 0, if |data| > 2 then data[2] else 0);
      QuadDecodes(data[0], if |data| > 1 then data[1] else 0, if |data| > 2 then data[2] else 0);
      assert IsText(q);
      if |data| > 2 {
        EncodeIsText(data[3..]);
        assert Encode(data) == q + Encode(data[3..]);
      }
    }
  }

  /** Four digits decode to three bytes, followed by what comes after. */
  lemma DecodeFullQuad(q: string, rest: string)
    requires |q| == 4 && forall i :: 0 <= i < 4 ==> Value(q[i]).Some?
    ensures var x, y, z, w := Value(q[0]).value, Value(q[1]).value, Value(q[2]).value, Value(q[3]).value;
            DecodeQuads(q + rest) ==
              var later := DecodeQuads(rest);
              if later.None? then None else Some([First(x, y), Second(y, z), Third(z, w)] + later.value)
  {
    PaddingIsNoDigit();
    hide Value, First, Second, Third;
    var s := q + rest;
    assert s[0] == q[0] && s[1] == q[1] && s[2] == q[2] && s[3] == q[3] && s[4..] == rest;
    assert s[2..][0] != '=' && s[3..][0] != '=';
  }

  /** A quad with one or two pad characters ends the text. */
  lemma DecodePaddedQuad(q: string)
    requires |q| == 4 && forall i :: 0 <= i < 4 ==> Value(q[i]).Some?
    ensures var x, y, z := Value(q[0]).value, Value(q[1]).value, Value(q[2]).value;
            DecodeQuads(q[..2] + "==") == Some([First(x, y)]) &&
            DecodeQuads(q[..3] + "=") == Some([First(x, y), Second(y, z)])
  {
    PaddingIsNoDigit();
    hide Value, First, Second, Third;
    assert (q[..2] + "==")[2..] == "==";
    var s := q[..3] + "=";
    assert s[2] != '=' && s[3..] == "=";
    assert s[2..][0] != '=';
  }

  lemma {:induction false} DecodeQuadsOfEncode(data: seq<Byte>)
    ensures DecodeQuads(Encode(data)) == Some(data)
  {
    if |data| == 0 {
    } else if |data| < 3 {
      DecodeShort(data);
    } else {
      DecodeQuadsOfEncode(data[3..]);
      DecodeLong(data);
    }
  }

  lemma DecodeShort(data: seq<Byte>)
    requires 0 < |data| < 3
    ensures DecodeQuads(Encode(data)) == Some(data)
  {
    hide Quad, DecodeQuads, Value, First, Second, Third;
    var q := Quad(data[0], if |data| > 1 then data[1] else 0, 0);
    QuadDecodes(data[0], if |data| > 1 then data[1] else 0, 0);
    DecodePaddedQuad(q);
    if |data| == 1 {
      assert [data[0]] == data;
    } else {
      assert [data[0], data[1]] == data;
    }
  }

  lemma DecodeLong(data: seq<Byte>)
    requires |data| >= 3 && DecodeQuads(Encode(data[3..])) == Some(data[3..])
    ensures DecodeQuads(Encode(data)) == Some(data)
  {
    var a, b, c, rest := data[0], data[1], data[2], Encode(data[3..]);
    Unfold(data);
    hide *;
    QuadDecodes(a, b, c);
    DecodeFullQuad(Quad(a, b, c), rest);
  }

  lemma Unfold(data: seq<Byte>)
    requires |data| >= 3
    ensures data == [data[0], data[1], data[2]] + data[3..]
    ensures Encode(data) == Quad(data[0], data[1], data[2]) + Encode(data[3..])
  {
    SplitThree(data);
    hide Quad;
  }

  lemma PaddingIsNoDigit()
    ensures Value('=').None?
  {
  }

  lemma {:induction false} TextHasNoLineEnds(s: string, end: string)
    requires IsText(s) && forall c :: c in end ==> IsLineEnd(c)
    ensures WithoutLineEnds(s + end) == s
  {
    if s != "" {
      TextHasNoLineEnds(s[1..], end);
      assert (s + end)[1..] == s[1..] + end;
      assert s[0] in s;
    } else if end != "" {
      TextHasNoLineEnds(s, end[1..]);
      assert s + end == end && s + end[1..] == end[1..];
    }
  }

  /** Encoded bytes decode to themselves, whatever line ends follow them. */
  lemma DecodeOfEncode(data: seq<Byte>, end: string)
    requires forall c :: c in end ==> c == '\n' || c == '\r'
    ensures Decode(Encode(data) + end) == Some(data)
  {
    EncodeIsText(data);
    TextHasNoLineEnds(Encode(data), end);
    DecodeQuadsOfEncode(data);
  }

  // ----- the encoding itself --------------------------------------------------------------

  /** Table 1 of RFC 4648: four runs of digits, and where each begins and ends. */
  lemma Alphabet(d: int)
    ensures Digit(0) == 'A' && Digit(25) == 'Z' && Digit(26) == 'a' && Digit(51) == 'z'
    ensures Digit(52) == '0' && Digit(61) == '9' && Digit(62) == '+' && Digit(63) == '/'
    ensures 0 <= d < 61 && d != 25 && d != 51 ==> Digit(d + 1) == Digit(d) + 1 as char
  {
  }

  /** The digits of a full group are those of a number of 24 bits in base 64. */
  lemma QuadIsNumber(a: Byte, b: Byte, c: Byte)
    ensures exists x, y, z, w ::
              0 <= x < 64 && 0 <= y < 64 && 0 <= z < 64 && 0 <= w < 64 &&
              Quad(a, b, c) == [Digit(x), Digit(y), Digit(z), Digit(w)] &&
              x * 0x4_0000 + y * 0x1000 + z * 0x40 + w == a * 0x1_0000 + b * 0x100 + c
  {
    var x, y, z, w := a / 4, a % 4 * 16 + b / 16, b % 16 * 4 + c / 64, c % 64;
    assert x * 0x4_0000 + y * 0x1000 + z * 0x40 + w == a * 0x1_0000 + b * 0x100 + c;
    assert Quad(a, b, c) == [Digit(x), Digit(y), Digit(z), Digit(w)];
    hide Digit, Quad;
  }

  /** Groups are encoded on their own; a last group of one or two bytes is filled up with zeroes and
      its unused digits are replaced by padding. */
  lemma {:induction false} EncodeGroups(front: seq<Byte>, data: seq<Byte>)
    requires |front| % 3 == 0
    ensures Encode(front + data) == Encode(front) + Encode(data)
    ensures |Encode(front)| == |front| / 3 * 4
  {
    hide Quad;
    if front == [] {
      assert front + data == data;
    } else {
      EncodeGroups(front[3..], data);
      assert (front + data)[3..] == front[3..] + data;
      Associate(Quad(front[0], front[1], front[2]), Encode(front[3..]), Encode(data));
    }
  }

  lemma EncodeGroup(a: Byte, b: Byte, c: Byte)
    ensures Encode([]) == "" && Encode([a, b, c]) == Quad(a, b, c)
    ensures Encode([a]) == Quad(a, 0, 0)[..2] + "==" && Encode([a, b]) == Quad(a, b, 0)[..3] + "="
  {
    assert [a, b, c][3..] == [];
  }

  /** Text of whole groups, of digits up to padding of at most two characters. */
  ghost predicate Padded(t: string, pad: nat) {
    |t| % 4 == 0 && pad <= 2 && pad <= |t| &&
    forall i :: 0 <= i < |t| ==> if i < |t| - pad then Value(t[i]).Some? else t[i] == '='
  }

  /** Exactly such text decodes. */
  lemma {:induction false} DecodesExactly(t: string)
    ensures DecodeQuads(t).Some? <==> Padded(t, 0) || Padded(t, 1) || Padded(t, 2)
  {
    PaddingIsNoDigit();
    hide Value, First, Second, Third;
    if |t| >= 4 {
      DecodesExactly(t[4..]);
      GroupFirst(t, 0);
      GroupFirst(t, 1);
      GroupFirst(t, 2);
    }
  }

  lemma GroupFirst(t: string, pad: nat)
    requires |t| >= 4 && Value('=').None?
    ensures |t| > 4 ==>
              (Padded(t, pad) <==> Padded(t[4..], pad) && forall i :: 0 <= i < 4 ==> Value(t[i]).Some?)
    ensures |t| == 4 && pad <= 2 ==>
              (Padded(t, pad) <==>
                 forall i :: 0 <= i < 4 ==> if i < 4 - pad then Value(t[i]).Some? else t[i] == '=')
  {
    hide Value;
    if |t| > 4 && Padded(t[4..], pad) && forall i :: 0 <= i < 4 ==> Value(t[i]).Some? {
      forall i | 0 <= i < |t|
        ensures if i < |t| - pad then Value(t[i]).Some? else t[i] == '='
      {
        assert i >= 4 ==> t[i] == t[4..][i - 4];
      }
    }
  }
}

/** The line-based event protocol between a broker worker and the programs it runs. */
module TextProtocol {
  import opened Common
  import opened Splitting
  import opened Base64

  datatype Event = Event(name: string, data: seq<Byte>)

  datatype ReadError = EndOfFile | InvalidTokens(count: nat) | InvalidBase64

  // ----- one event ------------------------------------------------------------------------

  function Line(e: Event): string {
    e.name + " " + Encode(e.data) + "\n"
  }

  /** The first line of the input with its line end; nothing if no line ends. */
  function FirstLine(input: string): (line: string)
    ensures |line| <= |input| && input[..|line|] == line
    ensures line == "" <==> '\n' !in input
    ensures line != "" ==> line[|line| - 1] == '\n' && '\n' !in line[..|line| - 1]
  {
    if '\n' !in input then ""
    else if input[0] == '\n' then "\n"
    else
      var rest := FirstLine(input[1..]);
      assert input == [input[0]] + input[1..];
      [input[0]] + rest
  }

  function TrimLeft(s: string): string {
    if s != "" && s[0] == ' ' then TrimLeft(s[1..]) else s
  }

  function TrimRight(s: string): string {
    if s != "" && s[|s| - 1] == ' ' then TrimRight(s[..|s| - 1]) else s
  }

  function ParseLine(line: string): Outcome<Event, ReadError> {
    var tokens := Pieces(TrimRight(TrimLeft(line)), ' ');
    if |tokens| != 2 then Failed(InvalidTokens(|tokens|))
    else
      var data := Decode(tokens[1]);
      if data.None? then Failed(InvalidBase64) else Done(Event(tokens[0], data.value))
  }

  class EventWriter {
    var output: string

    constructor ()
      ensures output == ""
    {
      output := "";
    }

    method WriteRawEvent(e: Event)
      modifies this
      ensures output == old(output) + Line(e)
    {
      output := output + e.name;
      output := output + [' '];
      output := output + Encode(e.data);
      output := output + ['\n'];
    }
  }

  class EventReader {
    var input: string

    constructor (input: string)
      ensures this.input == input
    {
      this.input := input;
    }

    /** Reads one line, all of what is left if it has no end, and makes an event of it. */
    method ReadRawEvent() returns (r: Outcome<Event, ReadError>)
      modifies this
      ensures r == if FirstLine(old(input)) == "" then Failed(EndOfFile) else ParseLine(FirstLine(old(input)))
      ensures input == if FirstLine(old(input)) == "" then "" else old(input)[|FirstLine(old(input))|..]
    {
      var line := FirstLine(input);
      if line == "" {
        input := "";
        return Failed(EndOfFile);
      }
      input := input[|line|..];
      line := TrimRight(TrimLeft(line));
      var tokens := Pieces(line, ' ');
      if |tokens| != 2 {
        return Failed(InvalidTokens(|tokens|));
      }
      var data := Decode(tokens[1]);
      if data.None? {
        return Failed(InvalidBase64);
      }
      return Done(Event(tokens[0], data.value));
    }
  }

  /** What reading an input until it ends gives. */
  function ReadAll(input: string): seq<Outcome<Event, ReadError>>
    decreases |input|
  {
    var line := FirstLine(input);
    if line == "" then [] else [ParseLine(line)] + ReadAll(input[|line|..])
  }

  function WriteAll(events: seq<Event>): string {
    if events == [] then "" else Line(events[0]) + WriteAll(events[1..])
  }

  predicate GoodName(name: string) {
    name != "" && ' ' !in name && '\n' !in name
  }

  // ----- lines ----------------------------------------------------------------------------

  lemma FirstLineOf(line: string, rest: string)
    requires '\n' !in line
    ensures FirstLine(line + "\n" + rest) == line + "\n"
  {
    hide FirstLine;
    var input := line + "\n" + rest;
    var first := FirstLine(input);
    var end := |first| - 1;
    assert input[|line|] == '\n';
    assert input[end] == '\n';
    assert end == |line|;
    assert first == input[..|line| + 1];
  }

  /** A reader that meets a line it cannot make sense of goes on with the next line. */
  lemma ReaderRecovers(line: string, rest: string)
    requires '\n' !in line
    ensures ReadAll(line + "\n" + rest) == [ParseLine(line + "\n")] + ReadAll(rest)
  {
    FirstLineOf(line, rest);
    assert (line + "\n" + rest)[|line| + 1..] == rest;
  }

  lemma {:induction false} TrimLeftKeeps(s: string)
    requires s != "" && s[|s| - 1] != ' '
    ensures var t := TrimLeft(s);
            t != "" && t[0] != ' ' && |t| <= |s| && t == s[|s| - |t|..]
  {
    if s[0] == ' ' {
      TrimLeftKeeps(s[1..]);
    }
  }

  // ----- tokens ---------------------------------------------------------------------------

  lemma {:induction false} PiecesOne(s: string, separator: char)
    requires |Pieces(s, separator)| == 1
    ensures Pieces(s, separator)[0] == s
  {
    if s != "" && s[0] != separator {
      PiecesOne(s[1..], separator);
      assert s == [s[0]] + s[1..];
    }
  }

  lemma {:induction false} PiecesTwo(s: string, separator: char)
    requires |Pieces(s, separator)| == 2
    ensures var p := Pieces(s, separator);
            separator !in p[0] && s == p[0] + [separator] + p[1]
  {
    if s[0] == separator {
      PiecesOne(s[1..], separator);
      assert s == [s[0]] + s[1..];
    } else {
      PiecesTwo(s[1..], separator);
      assert s == [s[0]] + s[1..];
    }
  }

  /** Every event the reader delivers has a name that could have been written. */
  lemma NamesAreGood(line: string)
    requires line != "" && line[|line| - 1] == '\n' && '\n' !in line[..|line| - 1]
    requires ParseLine(line).Done?
    ensures GoodName(ParseLine(line).value.name)
  {
    TrimLeftKeeps(line);
    var t := TrimLeft(line);
    PiecesTwo(t, ' ');
    var name := Pieces(t, ' ')[0];
    forall i | 0 <= i < |name|
      ensures name[i] != '\n'
    {
      var k := |line| - |t| + i;
      assert line[..|line| - 1][k] == t[i] == name[i];
    }
  }

  lemma GoodLineParses(e: Event)
    requires GoodName(e.name)
    ensures ParseLine(Line(e)) == Done(e)
  {
    var text := Encode(e.data);
    assert ' ' !in text + "\n" by {
      EncodeIsText(e.data);
      hide Encode;
    }
    Associate(e.name + " ", text, "\n");
    Associate(e.name, " ", text + "\n");
    DecodeOfEncode(e.data, "\n");
    TwoWords(e.name, text + "\n");
    hide Encode, Decode, Pieces, TrimLeft, TrimRight;
  }

  /** A line of two words, the second with the line end. */
  lemma TwoWords(a: string, b: string)
    requires a != "" && ' ' !in a && ' ' !in b && b != ""
    ensures Pieces(TrimRight(TrimLeft(a + " " + b)), ' ') == [a, b]
  {
    Untrimmed(a + " " + b);
    PiecesOfWord(b, ' ', "");
    PiecesOfWord(a, ' ', b);
    hide Pieces, TrimLeft, TrimRight;
  }

  lemma Untrimmed(s: string)
    requires s != "" && s[0] != ' ' && s[|s| - 1] != ' '
    ensures TrimRight(TrimLeft(s)) == s
  {
  }

  /** What is written for an event is read back as that event exactly when its name is not
      empty and holds no space and no line end. */
  lemma EventRoundTrip(e: Event, rest: string)
    ensures var read := ReadAll(Line(e) + rest);
            read != [] && (read[0] == Done(e) <==> GoodName(e.name)) &&
            (GoodName(e.name) ==> read[1..] == ReadAll(rest))
  {
    var input := Line(e) + rest;
    assert input[|Line(e)| - 1] == '\n';
    var line := FirstLine(input);
    hide FirstLine, ParseLine, Encode;
    if ParseLine(line) == Done(e) {
      NamesAreGood(line);
    }
    if GoodName(e.name) {
      GoodLineParses(e);
      var content := GoodContent(e);
      assert input == content + "\n" + rest;
      ReaderRecovers(content, rest);
    }
  }

  lemma GoodContent(e: Event) returns (content: string)
    requires GoodName(e.name)
    ensures '\n' !in content && Line(e) == content + "\n"
  {
    EncodeIsText(e.data);
    content := e.name + " " + Encode(e.data);
  }

  function AllDone(events: seq<Event>): seq<Outcome<Event, ReadError>> {
    seq(|events|, i requires 0 <= i < |events| => Done(events[i]))
  }

  lemma AllDoneStep(events: seq<Event>)
    requires events != []
    ensures AllDone(events) == [Done(events[0])] + AllDone(events[1..])
    ensures (forall e :: e in events ==> GoodName(e.name)) <==>
              GoodName(events[0].name) && forall e :: e in events[1..] ==> GoodName(e.name)
  {
    hide GoodName;
    assert events == [events[0]] + events[1..];
  }

  /** A list of events survives writing and reading exactly when every name is good. */
  lemma {:induction false} EventsRoundTrip(events: seq<Event>)
    ensures ReadAll(WriteAll(events)) == AllDone(events) <==> forall e :: e in events ==> GoodName(e.name)
  {
    if events == [] {
    } else {
      var e, rest := events[0], events[1..];
      EventRoundTrip(e, WriteAll(rest));
      EventsRoundTrip(rest);
      var read := ReadAll(WriteAll(events));
      AllDoneStep(events);
      hide ReadAll, Line, GoodName;
      assert read == [read[0]] + read[1..];
    }
  }

  // ----- lines that are no events ---------------------------------------------------------

  /** Blanks before a line do not count. */
  lemma LeadingBlanks(line: string)
    ensures ParseLine(" " + line) == ParseLine(line)
  {
    assert (" " + line)[1..] == line;
  }

  /** A line of one word or of three is refused with their number, and one whose second word is no
      base64 is refused too. */
  lemma RefusedLines(a: string, b: string, c: string)
    requires a != "" && ' ' !in a && ' ' !in b && ' ' !in c
    ensures ParseLine(a + "\n") == Failed(InvalidTokens(1))
    ensures ParseLine(a + " " + (b + " " + (c + "\n"))) == Failed(InvalidTokens(3))
    ensures ParseLine(a + " " + (b + "\n")) ==
              if Decode(b + "\n").None? then Failed(InvalidBase64) else Done(Event(a, Decode(b + "\n").value))
  {
    OneWord(a + "\n");
    TwoWords(a, b + "\n");
    ThreeWords(a, b, c + "\n");
    hide Pieces, Decode, TrimLeft, TrimRight;
  }

  lemma OneWord(a: string)
    requires a != "" && ' ' !in a
    ensures Pieces(TrimRight(TrimLeft(a)), ' ') == [a]
  {
    Untrimmed(a);
    PiecesOfWord(a, ' ', "");
  }

  lemma ThreeWords(a: string, b: string, c: string)
    requires a != "" && ' ' !in a && ' ' !in b && ' ' !in c && c != ""
    ensures Pieces(TrimRight(TrimLeft(a + " " + (b + " " + c))), ' ') == [a, b, c]
  {
    Untrimmed(a + " " + (b + " " + c));
    PiecesOfWord(c, ' ', "");
    PiecesOfWord(b, ' ', c);
    PiecesOfWord(a, ' ', b + " " + c);
    hide Pieces, TrimLeft, TrimRight;
  }

  /** The event of the protocol's own tests. */
  lemma HelloWorld(data: seq<Byte>)
    requires data == [119, 111, 114] + [108, 100]
    ensures Line(Event("hello", data)) == "hello d29ybGQ=\n"
  {
    EncodeGroups([119, 111, 114], [108, 100]);
    EncodeGroup(119, 111, 114);
    EncodeGroup(108, 100, 0);
    assert Quad(119, 111, 114) == "d29y" && Quad(108, 100, 0)[..3] == "bGQ";
    hide Encode, Quad;
    assert Encode(data) == "d29ybGQ=";
  }
}
