/** Length-prefixed blocks over a byte stream: a hexadecimal header of fixed width, then the data.
    A byte is written as a character. */
module BlockFraming {
  import opened Common

  const HEADER_SIZE := 16
  const SIZE_LIMIT: int := 0x1_0000_0000_0000_0000

  function Power(k: nat): (p: nat)
    ensures p >= 1
  {
    if k == 0 then 1 else 16 * Power(k - 1)
  }

  // ----- numbers in base 16 ---------------------------------------------------------------

  function HexDigit(d: int): char
    requires 0 <= d < 16
  {
    if d < 10 then '0' + d as char else 'a' + (d - 10) as char
  }

  function Hex(n: nat): (text: string)
    ensures text != ""
  {
    (if n < 16 then "" else Hex(n / 16)) + [HexDigit(n % 16)]
  }

  function HexValue(c: char): (v: Option<nat>)
    ensures v.Some? ==> v.value < 16
  {
    if '0' <= c <= '9' then Some((c as int - '0' as int) as nat)
    else if 'a' <= c <= 'f' then Some((c as int - 'a' as int + 10) as nat)
    else if 'A' <= c <= 'F' then Some((c as int - 'A' as int + 10) as nat)
    else None
  }

  predicate IsBlank(c: char) {
    c == ' ' || c == '\t' || c == '\n' || c == '\r' || c as int == 11 || c as int == 12
  }

  /** The digits at the start of `s`, and the number they make after `n`. */
  function ReadDigits(s: string, n: nat): nat {
    if s == "" || HexValue(s[0]).None? then n else ReadDigits(s[1..], 16 * n + HexValue(s[0]).value)
  }

  function SkipBlanks(s: string): (t: string)
    ensures |t| <= |s|
  {
    if s != "" && IsBlank(s[0]) then SkipBlanks(s[1..]) else s
  }

  /** An unsigned 64-bit number read in base 16, the way an input stream does: blanks, a sign,
      a prefix, digits; anything may follow. A minus sign negates modulo 2^64. */
  function ReadHex(header: string): Option<nat> {
    var s := SkipBlanks(header);
    var signed := s != "" && (s[0] == '-' || s[0] == '+');
    var t := if signed then s[1..] else s;
    var u := if |t| >= 2 && t[0] == '0' && (t[1] == 'x' || t[1] == 'X') then t[2..] else t;
    if u == "" || HexValue(u[0]).None? then None
    else
      var n := ReadDigits(u, 0);
      if n >= SIZE_LIMIT then None
      else if signed && s[0] == '-' then Some((SIZE_LIMIT - n) % SIZE_LIMIT)
      else Some(n)
  }

  function Blanks(n: nat): (s: string)
    ensures |s| == n
  {
    if n == 0 then "" else " " + Blanks(n - 1)
  }

  /** A number right-aligned in the header's width; a longer one is not cut. */
  function Header(n: nat): string {
    (if |Hex(n)| < HEADER_SIZE then Blanks(HEADER_SIZE - |Hex(n)|) else "") + Hex(n)
  }

  // ----- the connection -------------------------------------------------------------------

  datatype ReadError = EndOfFile | InvalidHeader

  function Encode(data: string): string {
    Header(|data|) + data
  }

  /** The first block of the stream. */
  function ReadBlock(stream: string): Outcome<string, ReadError> {
    if |stream| < HEADER_SIZE then Failed(EndOfFile)
    else
      var size := ReadHex(stream[..HEADER_SIZE]);
      if size.None? then Failed(InvalidHeader)
      else if |stream| < HEADER_SIZE + size.value then Failed(EndOfFile)
      else Done(stream[HEADER_SIZE..HEADER_SIZE + size.value])
  }

  class BlockConnection {
    var stream: string
    var outboundHeader: string
    var inboundHeader: string
    var inboundData: string

    constructor (stream: string)
      ensures this.stream == stream
    {
      this.stream := stream;
      outboundHeader, inboundHeader, inboundData := "", "", "";
    }

    /** Writes one block. A header of the wrong width is reported and the write goes on all
        the same; that would call the handler twice, and no 64-bit size leads to it. */
    method Write(data: string) returns (handlerCalls: nat)
      modifies this
      ensures stream == old(stream) + Encode(data)
      ensures handlerCalls == if |data| < SIZE_LIMIT then 1 else 2
    {
      var header := Header(|data|);
      HeaderFits(|data|);
      handlerCalls := 0;
      if |header| != HEADER_SIZE {
        handlerCalls := handlerCalls + 1;
      }
      outboundHeader := header;
      stream := stream + (outboundHeader + data);
      handlerCalls := handlerCalls + 1;
    }

    /** Reads one block. What a failed read has taken is lost. */
    method Read() returns (r: Outcome<string, ReadError>)
      modifies this
      ensures r == ReadBlock(old(stream))
      ensures r.Done? ==> old(stream) == old(stream)[..HEADER_SIZE] + r.value + stream
      ensures r == Failed(EndOfFile) ==> stream == ""
      ensures r == Failed(InvalidHeader) ==> stream == old(stream)[HEADER_SIZE..]
    {
      if |stream| < HEADER_SIZE {
        stream := "";
        return Failed(EndOfFile);
      }
      inboundHeader, stream := stream[..HEADER_SIZE], stream[HEADER_SIZE..];
      var size := ReadHex(inboundHeader);
      if size.None? {
        return Failed(InvalidHeader);
      }
      if |stream| < size.value {
        stream := "";
        return Failed(EndOfFile);
      }
      assert stream[..size.value] == old(stream)[HEADER_SIZE..HEADER_SIZE + size.value];
      inboundData, stream := stream[..size.value], stream[size.value..];
      r := Done(inboundData);
    }
  }

  /** All the blocks of a stream, up to the first that cannot be read. */
  function ReadAll(stream: string): seq<string>
    decreases |stream|
  {
    var r := ReadBlock(stream);
    if r.Failed? then [] else [r.value] + ReadAll(stream[HEADER_SIZE + |r.value|..])
  }

  function EncodeAll(blocks: seq<string>): string {
    if blocks == [] then "" else Encode(blocks[0]) + EncodeAll(blocks[1..])
  }

  // ----- headers --------------------------------------------------------------------------

  lemma {:induction false} HexLength(n: nat, k: nat)
    requires k >= 1
    ensures |Hex(n)| <= k <==> n < Power(k)
    decreases k
  {
    if n >= 16 {
      if k == 1 {
        assert Power(1) == 16 * Power(0) == 16;
      } else {
        HexLength(n / 16, k - 1);
      }
    } else {
      assert Power(k) == 16 * Power(k - 1);
    }
  }

  lemma SixteenDigits()
    ensures Power(HEADER_SIZE) == SIZE_LIMIT
  {
    assert Power(4) == 0x1_0000;
    assert Power(8) == 0x1_0000_0000;
    assert Power(12) == 0x1_0000_0000_0000;
  }

  /** The header has its full width exactly for the sizes of 64 bits. */
  lemma HeaderFits(n: nat)
    ensures |Header(n)| == HEADER_SIZE <==> n < SIZE_LIMIT
  {
    HexLength(n, HEADER_SIZE);
    SixteenDigits();
  }

  lemma DigitValue(d: int)
    requires 0 <= d < 16
    ensures HexValue(HexDigit(d)) == Some(d) && !IsBlank(HexDigit(d))
    ensures HexDigit(d) != '-' && HexDigit(d) != '+' && HexDigit(d) != 'x' && HexDigit(d) != 'X'
  {
  }

  lemma {:induction false} ReadDigitsAppend(s: string, c: char, n: nat)
    requires forall i :: 0 <= i < |s| ==> HexValue(s[i]).Some?
    requires HexValue(c).Some?
    ensures ReadDigits(s + [c], n) == 16 * ReadDigits(s, n) + HexValue(c).value
  {
    hide HexValue;
    if s == "" {
      assert [c][1..] == "";
      assert ReadDigits([c], n) == ReadDigits("", 16 * n + HexValue(c).value);
    } else {
      assert (s + [c])[1..] == s[1..] + [c];
      ReadDigitsAppend(s[1..], c, 16 * n + HexValue(s[0]).value);
    }
  }

  lemma {:induction false} ReadHexDigits(n: nat)
    ensures forall i :: 0 <= i < |Hex(n)| ==>
              HexValue(Hex(n)[i]).Some? && !IsBlank(Hex(n)[i]) && Hex(n)[i] !in "-+xX"
    ensures ReadDigits(Hex(n), 0) == n
  {
    DigitValue(n % 16);
    if n < 16 {
      ReadDigitsAppend("", HexDigit(n % 16), 0);
    } else {
      ReadHexDigits(n / 16);
      hide HexValue, HexDigit, IsBlank;
      ReadDigitsAppend(Hex(n / 16), HexDigit(n % 16), 0);
    }
  }

  lemma {:induction false} SkipsBlanks(k: nat, s: string)
    requires s != "" && !IsBlank(s[0])
    ensures SkipBlanks(Blanks(k) + s) == s
  {
    if k == 0 {
      assert Blanks(k) + s == s;
    } else {
      SkipsBlanks(k - 1, s);
      assert (Blanks(k) + s)[1..] == Blanks(k - 1) + s;
    }
  }

  /** A header reads back as the size it was written for. */
  lemma HeaderRoundTrip(n: nat)
    requires n < SIZE_LIMIT
    ensures ReadHex(Header(n)) == Some(n)
  {
    HeaderFits(n);
    ReadHexDigits(n);
    SkipsBlanks(HEADER_SIZE - |Hex(n)|, Hex(n));
    hide Hex, HexValue, IsBlank, SkipBlanks, ReadDigits, Blanks, Power;
    assert Header(n) == Blanks(HEADER_SIZE - |Hex(n)|) + Hex(n);
  }

  // ----- headers, character by character --------------------------------------------------

  lemma HexAlphabet(d: int)
    ensures HexDigit(0) == '0' && HexDigit(9) == '9' && HexDigit(10) == 'a' && HexDigit(15) == 'f'
    ensures 0 <= d < 15 && d != 9 ==> HexDigit(d + 1) == HexDigit(d) + 1 as char
  {
  }

  /** Digits of either case are read, and nothing else is. */
  lemma HexValues(c: char)
    ensures HexValue(c).Some? <==> c in "0123456789abcdefABCDEF"
    ensures HexValue('0') == Some(0) && HexValue('a') == HexValue('A') == Some(10)
    ensures c in "012345678abcdeABCDE" ==> HexValue(c + 1 as char) == Some(HexValue(c).value + 1)
  {
  }

  /** Any blank may come first. */
  lemma LeadingBlank(c: char, header: string)
    requires c == ' ' || 9 <= c as int <= 13
    ensures ReadHex([c] + header) == ReadHex(header)
  {
    assert ([c] + header)[1..] == header;
  }

  /** `n` divided by 16 `k` times. */
  function Shifted(n: nat, k: nat): nat {
    if k == 0 then n else Shifted(n / 16, k - 1)
  }

  lemma {:induction false} HexAt(n: nat, k: nat)
    ensures k < |Hex(n)| ==> Hex(n)[|Hex(n)| - 1 - k] == HexDigit(Shifted(n, k) % 16)
    ensures k < |Hex(n)| <==> k == 0 || Shifted(n, k) > 0
    decreases k
  {
    hide HexDigit;
    if k > 0 {
      if n >= 16 {
        HexAt(n / 16, k - 1);
        assert Hex(n) == Hex(n / 16) + [HexDigit(n % 16)];
      } else {
        NothingLeft(k - 1);
      }
    }
  }

  lemma {:induction false} NothingLeft(k: nat)
    ensures Shifted(0, k) == 0
  {
    if k > 0 {
      NothingLeft(k - 1);
    }
  }

  lemma {:induction false} BlankAt(n: nat, i: nat)
    requires i < n
    ensures Blanks(n)[i] == ' '
  {
    if i > 0 {
      BlankAt(n - 1, i - 1);
    }
  }

  /** The header is the number in base 16, without leading zeroes, on the right. */
  lemma HeaderText(n: nat, k: nat)
    requires n < SIZE_LIMIT && k < 16
    ensures |Header(n)| == 16
    ensures Header(n)[15 - k] == if k > 0 && Shifted(n, k) == 0 then ' ' else HexDigit(Shifted(n, k) % 16)
  {
    HeaderFits(n);
    HexAt(n, k);
    hide Hex, HexDigit, Shifted;
    var pad := 16 - |Hex(n)|;
    assert Header(n) == Blanks(pad) + Hex(n);
    if k >= |Hex(n)| {
      BlankAt(pad, 15 - k);
    }
  }

  lemma {:induction false} ReadsUpTo(s: string, rest: string, n: nat)
    requires forall i :: 0 <= i < |s| ==> HexValue(s[i]).Some?
    requires rest != "" ==> HexValue(rest[0]).None?
    ensures ReadDigits(s + rest, n) == ReadDigits(s, n)
  {
    hide HexValue;
    if s == "" {
      assert s + rest == rest;
    } else {
      assert (s + rest)[1..] == s[1..] + rest;
      ReadsUpTo(s[1..], rest, 16 * n + HexValue(s[0]).value);
    }
  }

  /** What may stand in a header: blanks, then a sign or the prefix, then a number, then anything that
      does not go on with it. */
  lemma HeaderForms(blanks: nat, sign: string, n: nat, rest: string)
    requires rest != "" ==> HexValue(rest[0]).None? && rest[0] !in "xX"
    requires sign == "" || sign == "+" || sign == "-" || sign == "0x" || sign == "0X"
    ensures ReadHex(Blanks(blanks) + (sign + (Hex(n) + rest))) ==
              if n >= SIZE_LIMIT then None else if sign == "-" && n > 0 then Some(SIZE_LIMIT - n) else Some(n)
  {
    var d := Hex(n) + rest;
    ReadHexDigits(n);
    ReadsUpTo(Hex(n), rest, 0);
    hide Hex, HexValue, ReadDigits, IsBlank, SkipBlanks, Blanks, ReadHex;
    assert Hex(n)[0] == d[0] && (|d| > 1 ==> d[1] !in "xX");
    SignsAreNoBlanks();
    assert (sign + d)[0] == if sign == "" then d[0] else sign[0];
    SkipsBlanks(blanks, sign + d);
    ReadSigned(Blanks(blanks) + (sign + d), sign, d);
  }

  lemma ReadSigned(header: string, sign: string, d: string)
    requires SkipBlanks(header) == sign + d
    requires sign == "" || sign == "+" || sign == "-" || sign == "0x" || sign == "0X"
    requires d != "" && HexValue(d[0]).Some? && d[0] !in "-+" && (|d| > 1 ==> d[1] !in "xX")
    ensures var n := ReadDigits(d, 0);
            ReadHex(header) ==
              if n >= SIZE_LIMIT then None else if sign == "-" && n > 0 then Some(SIZE_LIMIT - n) else Some(n)
  {
    hide HexValue, ReadDigits, SkipBlanks;
    if sign != "" {
      assert (sign + d)[0] == sign[0];
      assert (sign + d)[|sign|..] == d;
    } else {
      assert sign + d == d;
    }
  }

  /** Without a digit where the number should start there is none. */
  lemma NoNumber(blanks: nat, sign: string, rest: string)
    requires sign == "" || sign == "+" || sign == "-"
    requires rest != "" ==> HexValue(rest[0]).None? && (sign == "" ==> !IsBlank(rest[0]) && rest[0] !in "-+")
    requires sign + rest != ""
    ensures ReadHex(Blanks(blanks) + (sign + rest)).None?
  {
    SignsAreNoBlanks();
    assert rest != "" ==> rest[0] != '0';
    assert (sign + rest)[0] == if sign == "" then rest[0] else sign[0];
    SkipsBlanks(blanks, sign + rest);
    hide SkipBlanks, Blanks, IsBlank, HexValue;
    assert (sign + rest)[|sign|..] == rest;
    assert sign == "" ==> sign + rest == rest;
  }

  lemma SignsAreNoBlanks()
    ensures !IsBlank('+') && !IsBlank('-') && !IsBlank('0')
  {
  }

  // ----- streams of blocks ----------------------------------------------------------------

  /** A block that has arrived whole is read, and one that has not ends the reading. */
  lemma ReadEncoded(data: string, rest: string, cut: nat)
    requires |data| < SIZE_LIMIT && cut <= |Encode(data) + rest|
    ensures var stream := (Encode(data) + rest)[..cut];
            ReadBlock(stream) == if cut < |Encode(data)| then Failed(EndOfFile) else Done(data)
  {
    HeaderFits(|data|);
    HeaderRoundTrip(|data|);
    hide Header, ReadHex, Power;
    var all := Encode(data) + rest;
    if cut >= HEADER_SIZE {
      FrontOf(Header(|data|), data + rest, cut);
      assert all == Header(|data|) + (data + rest);
      if cut >= |Encode(data)| {
        FrontOf(data, rest, cut - HEADER_SIZE);
        assert all[..cut][HEADER_SIZE..|Encode(data)|] == all[..cut][HEADER_SIZE..][..|data|];
      }
    }
  }

  /** A cut behind the first of two parts leaves it whole, and cuts the second. */
  lemma FrontOf(front: string, back: string, cut: nat)
    requires |front| <= cut <= |front| + |back|
    ensures (front + back)[..cut][..|front|] == front
    ensures (front + back)[..cut][|front|..] == back[..cut - |front|]
  {
  }

  /** How many of the blocks have wholly arrived in the first `cut` bytes. */
  function Arrived(blocks: seq<string>, cut: nat): (n: nat)
    ensures n <= |blocks|
  {
    if blocks == [] || cut < |Encode(blocks[0])| then 0
    else 1 + Arrived(blocks[1..], cut - |Encode(blocks[0])|)
  }

  /** However the stream of some blocks is cut short, exactly the blocks that have arrived
      are read, in order, and nothing that was not written is ever delivered. */
  lemma {:induction false} CutStream(blocks: seq<string>, cut: nat)
    requires forall b :: b in blocks ==> |b| < SIZE_LIMIT
    requires cut <= |EncodeAll(blocks)|
    ensures ReadAll(EncodeAll(blocks)[..cut]) == blocks[..Arrived(blocks, cut)]
  {
    hide Encode;
    if blocks == [] {
      assert ReadBlock("").Failed?;
    } else {
      var data, rest := blocks[0], EncodeAll(blocks[1..]);
      ReadEncoded(data, rest, cut);
      if cut >= |Encode(data)| {
        var left := cut - |Encode(data)|;
        CutStream(blocks[1..], left);
        EncodedSize(data);
        var stream := EncodeAll(blocks)[..cut];
        DropFront(Encode(data), rest, cut);
        assert ReadAll(stream) == [data] + ReadAll(rest[..left]);
        TakeFirst(blocks, Arrived(blocks[1..], left));
        hide ReadAll, EncodeAll, ReadBlock;
      }
    }
  }

  lemma TakeFirst(blocks: seq<string>, n: nat)
    requires n < |blocks|
    ensures blocks[..n + 1] == [blocks[0]] + blocks[1..][..n]
  {
  }

  lemma DropFront(front: string, rest: string, cut: nat)
    requires |front| <= cut <= |front + rest|
    ensures (front + rest)[..cut][|front|..] == rest[..cut - |front|]
  {
  }

  lemma EncodedSize(data: string)
    requires |data| < SIZE_LIMIT
    ensures |Encode(data)| == HEADER_SIZE + |data|
  {
    HeaderFits(|data|);
  }

  lemma {:induction false} AllArrived(blocks: seq<string>)
    ensures Arrived(blocks, |EncodeAll(blocks)|) == |blocks|
  {
    if blocks != [] {
      AllArrived(blocks[1..]);
    }
  }

  /** Reading the concatenation of written blocks gives exactly those blocks. */
  lemma BlocksRoundTrip(blocks: seq<string>)
    requires forall b :: b in blocks ==> |b| < SIZE_LIMIT
    ensures ReadAll(EncodeAll(blocks)) == blocks
  {
    AllArrived(blocks);
    CutStream(blocks, |EncodeAll(blocks)|);
    assert EncodeAll(blocks)[..|EncodeAll(blocks)|] == EncodeAll(blocks);
  }
}
