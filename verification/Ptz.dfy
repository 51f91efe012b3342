/** Pan, tilt and zoom commands as hexadecimal text. */
module Ptz {
  import opened Bytes
  import opened Wrappers

  const SPEED: byte := 0xA1
  const ZOOM_SPEED: byte := 0xA0
  /** The command that ends every movement. */
  const STOP := "A50F0100000000B5"

  function HexDigit(d: int): (c: char)
    requires 0 <= d < 16
    ensures (d < 10 && c as int == '0' as int + d) || (d >= 10 && c as int == 'A' as int + d - 10)
  {
    if d < 10 then '0' + d as char else 'A' + (d - 10) as char
  }

  /** The text of `%02X`. */
  function Hex(b: byte): (s: string)
    ensures |s| == 2
  {
    [HexDigit(b / 16), HexDigit(b % 16)]
  }

  function Nibble(c: char): Option<int> {
    if '0' <= c <= '9' then Some(c as int - '0' as int)
    else if 'A' <= c <= 'F' then Some(c as int - 'A' as int + 10)
    else None
  }

  /** Reads pairs of hexadecimal digits. */
  function Decode(s: string): Option<seq<int>> {
    if s == [] then Some([])
    else if |s| == 1 || Nibble(s[0]).None? || Nibble(s[1]).None? || Decode(s[2..]).None? then None
    else Some([16 * Nibble(s[0]).value + Nibble(s[1]).value] + Decode(s[2..]).value)
  }

  lemma NibbleOf(d: int)
    requires 0 <= d < 16
    ensures Nibble(HexDigit(d)) == Some(d)
  {
  }

  lemma DecodePair(x: char, y: char, s: string)
    requires Nibble(x).Some? && Nibble(y).Some?
    ensures Decode([x, y] + s)
            == if Decode(s).None? then None else Some([16 * Nibble(x).value + Nibble(y).value] + Decode(s).value)
  {
    hide Nibble;
    assert ([x, y] + s)[2..] == s;
  }

  lemma DecodeHex(b: byte, s: string)
    ensures Decode(Hex(b) + s) == if Decode(s).None? then None else Some([b] + Decode(s).value)
  {
    NibbleOf(b / 16);
    NibbleOf(b % 16);
    DecodePair(HexDigit(b / 16), HexDigit(b % 16), s);
    hide HexDigit, Nibble, Decode;
    assert 16 * (b / 16) + b % 16 == b;
  }

  /** The low byte of a command; C keeps the low eight bits also of a negative int. */
  function Low(cmd: int): byte { cmd % 256 }

  datatype Move = Pan | Tilt | Zoom

  /** Annex A.3 of GB/T 28181-2016: bits 0 and 1 pan, 2 and 3 tilt, 4 and 5 zoom. */
  function MoveOf(cmd: byte): Option<Move> {
    if cmd == 0x01 || cmd == 0x02 then Some(Pan)
    else if cmd == 0x04 || cmd == 0x08 then Some(Tilt)
    else if cmd == 0x10 || cmd == 0x20 then Some(Zoom)
    else None
  }

  /** Command and speeds as text; any other command leaves the program's text buffer unset. */
  function CommandText(cmd: int): Option<string> {
    var chCmd := Low(cmd);
    if chCmd == 0x01 || chCmd == 0x02 then Some(Hex(chCmd) + Hex(SPEED) + "0000")
    else if chCmd == 0x04 || chCmd == 0x08 then Some(Hex(chCmd) + "00" + Hex(SPEED) + "00")
    else if chCmd == 0x10 || chCmd == 0x20 then Some(Hex(chCmd) + "0000A0")
    else None
  }

  /** The sum is taken over the whole int; only then is it cut to a byte. */
  function CheckSum(cmd: int): byte {
    var chCmd := Low(cmd);
    var sum :=
      if chCmd == 0x01 || chCmd == 0x02 then 0xA5 + 0x0F + 0x01 + cmd + SPEED
      else if chCmd == 0x04 || chCmd == 0x08 then 0xA5 + 0x0F + 0x01 + cmd + SPEED
      else if chCmd == 0x10 || chCmd == 0x20 then 0xA5 + 0x0F + 0x01 + cmd + 0xA0
      else 0;
    sum % 256
  }

  function PtzText(cmd: int): Option<string> {
    var text := CommandText(cmd);
    if text.None? then None else Some("A50F01" + text.value + Hex(CheckSum(cmd)))
  }

  function Sum(bs: seq<int>): int { if bs == [] then 0 else Sum(bs[..|bs| - 1]) + bs[|bs| - 1] }

  /** Eight bytes: the fixed head, the command, the pan, tilt and zoom speeds, and the sum of the
      first seven. */
  predicate Frame(bs: seq<int>, cmd: byte, pan: int, tilt: int, zoom: int) {
    |bs| == 8 && bs[..7] == [0xA5, 0x0F, 0x01, cmd, pan, tilt, zoom] && bs[7] == Sum(bs[..7]) % 256
  }

  function Print(bs: seq<byte>): string { if bs == [] then "" else Hex(bs[0]) + Print(bs[1..]) }

  /** Printing bytes and reading them back loses nothing. */
  lemma {:induction false} PrintRead(bs: seq<byte>)
    ensures Decode(Print(bs)) == Some(bs)
  {
    if bs == [] {
    } else {
      PrintRead(bs[1..]);
      DecodeHex(bs[0], Print(bs[1..]));
      assert [bs[0]] + bs[1..] == bs;
    }
  }

  lemma {:induction false} PrintConcat(a: seq<byte>, b: seq<byte>)
    ensures Print(a + b) == Print(a) + Print(b)
  {
    if a == [] {
      assert a + b == b;
    } else {
      assert (a + b)[1..] == a[1..] + b;
      PrintConcat(a[1..], b);
    }
  }

  lemma PrintOne(b: byte)
    ensures Print([b]) == Hex(b)
  {
    assert [b][1..] == [];
  }

  lemma PrintTwo(a: byte, b: byte)
    ensures Print([a, b]) == Hex(a) + Hex(b)
  {
    PrintOne(a);
    PrintOne(b);
    PrintConcat([a], [b]);
    assert [a, b] == [a] + [b];
  }

  /** The speeds a command sets. */
  function Speeds(cmd: byte): (int, int, int) {
    match MoveOf(cmd)
    case Some(Pan) => (SPEED, 0, 0)
    case Some(Tilt) => (0, SPEED, 0)
    case Some(Zoom) => (0, 0, ZOOM_SPEED)
    case None => (0, 0, 0)
  }

  /** The seven bytes before the sum. */
  function Body(cmd: int): seq<byte> {
    var s := Speeds(Low(cmd));
    [0xA5, 0x0F, 0x01, Low(cmd), s.0, s.1, s.2]
  }

  lemma PrintFour(a: byte, b: byte, c: byte, d: byte)
    ensures Print([a, b, c, d]) == Hex(a) + Hex(b) + (Hex(c) + Hex(d))
  {
    PrintTwo(a, b);
    PrintTwo(c, d);
    PrintConcat([a, b], [c, d]);
    assert [a, b, c, d] == [a, b] + [c, d];
  }

  lemma CommandIs(cmd: int)
    requires MoveOf(Low(cmd)).Some?
    ensures CommandText(cmd) == Some(Print(Body(cmd)[3..]))
  {
    var c, s := Low(cmd), Speeds(Low(cmd));
    PrintFour(c, s.0, s.1, s.2);
    assert Body(cmd)[3..] == [c, s.0, s.1, s.2];
    assert Hex(0) == "00" && Hex(0xA0) == "A0";
    match MoveOf(c).value
    case Pan => assert Hex(c) + Hex(SPEED) + "0000" == Hex(c) + Hex(SPEED) + ("00" + "00");
    case Tilt => assert Hex(c) + "00" + Hex(SPEED) + "00" == Hex(c) + "00" + (Hex(SPEED) + "00");
    case Zoom => assert Hex(c) + "0000A0" == Hex(c) + "00" + ("00" + "A0");
  }

  lemma SumOfBody(cmd: int)
    requires MoveOf(Low(cmd)).Some?
    ensures Sum(Body(cmd)) % 256 == CheckSum(cmd)
  {
    var s := Speeds(Low(cmd));
    SumSeven(0xA5, 0x0F, 0x01, Low(cmd), s.0, s.1, s.2);
  }

  lemma SumSeven(a: int, b: int, c: int, d: int, e: int, f: int, g: int)
    ensures Sum([a, b, c, d, e, f, g]) == a + b + c + d + e + f + g
  {
    assert [a][..0] == [] && [a, b][..1] == [a] && [a, b, c][..2] == [a, b] && [a, b, c, d][..3] == [a, b, c];
    assert [a, b, c, d, e][..4] == [a, b, c, d] && [a, b, c, d, e, f][..5] == [a, b, c, d, e];
    assert [a, b, c, d, e, f, g][..6] == [a, b, c, d, e, f];
    assert Sum([a]) == a && Sum([a, b]) == a + b && Sum([a, b, c]) == a + b + c;
    assert Sum([a, b, c, d]) == a + b + c + d && Sum([a, b, c, d, e]) == a + b + c + d + e;
    assert Sum([a, b, c, d, e, f]) == a + b + c + d + e + f;
  }

  /** For every int a command text comes out exactly if the low byte is one of the six commands, and
      then it reads as eight bytes with the right speed in the right place and a correct sum. */
  lemma PtzFrame(cmd: int)
    ensures PtzText(cmd).Some? <==> MoveOf(Low(cmd)).Some?
    ensures MoveOf(Low(cmd)).Some? ==>
              var text, s := Decode(PtzText(cmd).value), Speeds(Low(cmd));
              text.Some? && Frame(text.value, Low(cmd), s.0, s.1, s.2)
  {
    if MoveOf(Low(cmd)).Some? {
      FrameOf(cmd);
    }
  }

  /** The bytes of each command: 1 and 2 pan, 4 and 8 tilt, 16 and 32 zoom; speed A1 for pan and tilt, A0 for
      zoom; and any other low byte gives no text. */
  lemma PtzBytes(cmd: int)
    ensures var c := cmd % 256;
            if c == 1 || c == 2 then
              PtzText(cmd).Some? && Decode(PtzText(cmd).value)
                == Some([0xA5, 0x0F, 0x01, c, 0xA1, 0, 0, (0xA5 + 0x0F + 0x01 + c + 0xA1) % 256])
            else if c == 4 || c == 8 then
              PtzText(cmd).Some? && Decode(PtzText(cmd).value)
                == Some([0xA5, 0x0F, 0x01, c, 0, 0xA1, 0, (0xA5 + 0x0F + 0x01 + c + 0xA1) % 256])
            else if c == 16 || c == 32 then
              PtzText(cmd).Some? && Decode(PtzText(cmd).value)
                == Some([0xA5, 0x0F, 0x01, c, 0, 0, 0xA0, (0xA5 + 0x0F + 0x01 + c + 0xA0) % 256])
            else PtzText(cmd) == None
  {
    PtzFrame(cmd);
    if MoveOf(Low(cmd)).Some? {
      var s := Speeds(Low(cmd));
      FrameIs(Decode(PtzText(cmd).value).value, Low(cmd), s.0, s.1, s.2);
    }
    hide PtzText, Decode, Frame;
  }

  lemma FrameIs(bs: seq<int>, cmd: byte, pan: int, tilt: int, zoom: int)
    requires Frame(bs, cmd, pan, tilt, zoom)
    ensures bs == [0xA5, 0x0F, 0x01, cmd, pan, tilt, zoom, (0xA5 + 0x0F + 0x01 + cmd + pan + tilt + zoom) % 256]
  {
    SumSeven(0xA5, 0x0F, 0x01, cmd, pan, tilt, zoom);
    assert bs == bs[..7] + [bs[7]];
  }

  lemma FrameOf(cmd: int)
    requires MoveOf(Low(cmd)).Some?
    ensures PtzText(cmd).Some?
    ensures var text, s := Decode(PtzText(cmd).value), Speeds(Low(cmd));
            text.Some? && Frame(text.value, Low(cmd), s.0, s.1, s.2)
  {
    if MoveOf(Low(cmd)).Some? {
      var body, sum := Body(cmd), CheckSum(cmd);
      CommandIs(cmd);
      SumOfBody(cmd);
      HeadText();
      PrintConcat(body[..3], body[3..]);
      assert body[..3] == [0xA5, 0x0F, 0x01] && body[..3] + body[3..] == body;
      PrintOne(sum);
      PrintConcat(body, [sum]);
      PrintRead(body + [sum]);
      assert (body + [sum])[..7] == body;
    }
  }

  lemma HeadText()
    ensures Print([0xA5, 0x0F, 0x01]) == "A50F01"
  {
    assert Hex(0xA5) == "A5" && Hex(0x0F) == "0F" && Hex(0x01) == "01";
    PrintTwo(0xA5, 0x0F);
    PrintOne(0x01);
    PrintConcat([0xA5, 0x0F], [0x01]);
    assert [0xA5, 0x0F, 0x01] == [0xA5, 0x0F] + [0x01];
  }

  const STOP_BYTES: seq<byte> := [0xA5, 0x0F, 0x01] + ([0, 0, 0, 0] + [0xB5])

  lemma StopText()
    ensures Print(STOP_BYTES) == STOP
  {
    hide Hex;
    HeadText();
    ZeroText();
    PrintFour(0, 0, 0, 0);
    PrintOne(0xB5);
    PrintConcat([0, 0, 0, 0], [0xB5]);
    PrintConcat([0xA5, 0x0F, 0x01], [0, 0, 0, 0] + [0xB5]);
  }

  lemma ZeroText()
    ensures Hex(0) == "00" && Hex(0xB5) == "B5"
  {
  }

  /** The stop text follows the same rule. */
  lemma StopFrame()
    ensures Decode(STOP).Some? && Frame(Decode(STOP).value, 0, 0, 0, 0)
    ensures Decode(STOP) == Some([0xA5, 0x0F, 0x01, 0, 0, 0, 0, 0xB5])
  {
    hide Decode, Print;
    StopText();
    PrintRead(STOP_BYTES);
    SumSeven(0xA5, 0x0F, 0x01, 0, 0, 0, 0);
    assert STOP_BYTES[..7] == [0xA5, 0x0F, 0x01, 0, 0, 0, 0];
    FrameIs(Decode(STOP).value, 0, 0, 0, 0);
  }
}
