/**
 * The text protocol spoken to the rover: one ASCII line per command, made of
 * comma-separated tokens and ended by a single newline.
 *
 *   <DIRECTION>,START      <DIRECTION>,STOP
 *   SPIRAL,START,<speed>   SPIRAL,STOP       SPIRAL,SPEED,<speed>
 *
 * Encode is what the controller writes; Decode is a reference parser for the
 * same format, used to show that no two commands share a wire form.
 */
module Wire {

  datatype Option<T> = None | Some(value: T)

  /** The four direction buttons. */
  datatype Direction = North | South | East | West

  /** The edge of a direction press: finger down starts motion, finger up stops it. */
  datatype Edge = Start | Stop

  datatype Command =
    | Move(direction: Direction, edge: Edge)
    | SpiralStart(speed: int)
    | SpiralStop
    | SpiralSpeed(speed: int)

  function DirectionName(d: Direction): string {
    match d
    case North => "NORTH"
    case South => "SOUTH"
    case East => "EAST"
    case West => "WEST"
  }

  function EdgeName(e: Edge): string {
    match e
    case Start => "START"
    case Stop => "STOP"
  }

  function DirectionOf(t: string): Option<Direction> {
    if t == "NORTH" then Some(North)
    else if t == "SOUTH" then Some(South)
    else if t == "EAST" then Some(East)
    else if t == "WEST" then Some(West)
    else None
  }

  function EdgeOf(t: string): Option<Edge> {
    if t == "START" then Some(Start)
    else if t == "STOP" then Some(Stop)
    else None
  }

  // ---------------------------------------------------------------------
  // Decimal numerals, as Kotlin's string template renders an Int
  // ---------------------------------------------------------------------

  predicate IsDigit(c: char) {
    '0' <= c <= '9'
  }

  predicate AllDigits(s: string) {
    forall i :: 0 <= i < |s| ==> IsDigit(s[i])
  }

  /** A numeral without superfluous leading zeros. */
  predicate Canonical(s: string) {
    |s| >= 1 && AllDigits(s) && (s[0] == '0' ==> |s| == 1)
  }

  function DigitChar(d: nat): char
    requires d < 10
  {
    (('0' as int) + d) as char
  }

  /** The decimal numeral of n, most significant digit first. */
  function NatToDecimal(n: nat): (s: string)
    ensures Canonical(s)
    ensures n < 10 <==> |s| == 1
    ensures s[0] == '0' <==> n == 0
    decreases n
  {
    if n < 10 then [DigitChar(n)] else NatToDecimal(n / 10) + [DigitChar(n % 10)]
  }

  /** The number a string of digits denotes. */
  function DigitsValue(s: string): nat
    requires AllDigits(s)
    decreases |s|
  {
    if |s| == 0 then 0
    else DigitsValue(s[..|s| - 1]) * 10 + (s[|s| - 1] as int - '0' as int)
  }

  /** Kotlin's rendering of an Int: an optional minus sign, then the numeral. */
  function IntToDecimal(i: int): (s: string)
    ensures |s| >= 1
    ensures ',' !in s && '\n' !in s
  {
    var t := if i < 0 then "-" + NatToDecimal(-i) else NatToDecimal(i);
    assert forall k :: 0 <= k < |t| ==> t[k] == '-' || IsDigit(t[k]);
    t
  }

  function ParseInt(t: string): Option<int> {
    if |t| >= 2 && t[0] == '-' && Canonical(t[1..]) && t[1] != '0' then Some(0 - DigitsValue(t[1..]) as int)
    else if Canonical(t) then Some(DigitsValue(t))
    else None
  }

  lemma {:induction false} NatToDecimalValue(n: nat)
    ensures DigitsValue(NatToDecimal(n)) == n
    decreases n
  {
    var s := NatToDecimal(n);
    if n >= 10 {
      assert s[..|s| - 1] == NatToDecimal(n / 10);
      NatToDecimalValue(n / 10);
    }
  }

  lemma {:induction false} LeadingDigitPositive(s: string)
    requires AllDigits(s) && |s| >= 1 && s[0] != '0'
    ensures DigitsValue(s) >= 1
    decreases |s|
  {
    if |s| > 1 {
      LeadingDigitPositive(s[..|s| - 1]);
    }
  }

  lemma {:induction false} CanonicalRoundTrip(s: string)
    requires Canonical(s)
    ensures NatToDecimal(DigitsValue(s)) == s
    decreases |s|
  {
    if |s| > 1 {
      var p := s[..|s| - 1];
      var d := s[|s| - 1] as int - '0' as int;
      LeadingDigitPositive(p);
      CanonicalRoundTrip(p);
      var n := DigitsValue(s);
      assert n == DigitsValue(p) * 10 + d;
      assert n / 10 == DigitsValue(p) && n % 10 == d;
      assert s == p + [s[|s| - 1]];
    }
  }

  lemma ParseNegative(n: nat)
    requires n > 0
    ensures ParseInt("-" + NatToDecimal(n)) == Some(0 - n as int)
  {
    var u := NatToDecimal(n);
    var t := "-" + u;
    assert t[1..] == u;
    NatToDecimalValue(n);
  }

  lemma ParseNonNegative(n: nat)
    ensures ParseInt(NatToDecimal(n)) == Some(n)
  {
    NatToDecimalValue(n);
  }

  /** The numeral of every Int reads back as that Int. */
  lemma ParseIntOfDecimal(i: int)
    ensures ParseInt(IntToDecimal(i)) == Some(i)
  {
    if i < 0 {
      ParseNegative(-i);
    } else {
      ParseNonNegative(i);
    }
  }

  /** Every numeral ParseInt accepts is the one IntToDecimal would write. */
  lemma DecimalOfParseInt(t: string, i: int)
    requires ParseInt(t) == Some(i)
    ensures IntToDecimal(i) == t
  {
    if |t| >= 2 && t[0] == '-' && Canonical(t[1..]) && t[1] != '0' {
      LeadingDigitPositive(t[1..]);
      CanonicalRoundTrip(t[1..]);
      assert t == "-" + t[1..];
    } else {
      CanonicalRoundTrip(t);
    }
  }

  // ---------------------------------------------------------------------
  // Tokens
  // ---------------------------------------------------------------------

  /** The tokens joined with commas. */
  function Join(fs: seq<string>): string
    decreases |fs|
  {
    if |fs| == 0 then "" else if |fs| == 1 then fs[0] else fs[0] + "," + Join(fs[1..])
  }

  lemma JoinTwo(a: string, b: string)
    ensures Join([a, b]) == a + "," + b
  {
    assert [a, b][1..] == [b];
  }

  lemma JoinThree(a: string, b: string, c: string)
    ensures Join([a, b, c]) == a + "," + b + "," + c
  {
    assert [a, b, c][1..] == [b, c];
    JoinTwo(b, c);
  }

  /** The comma-separated tokens of a line body. */
  function Split(s: string): (r: seq<string>)
    ensures |r| >= 1
    ensures forall i :: 0 <= i < |r| ==> ',' !in r[i]
    decreases |s|
  {
    if |s| == 0 then [""]
    else if s[0] == ',' then [""] + Split(s[1..])
    else
      var rest := Split(s[1..]);
      [[s[0]] + rest[0]] + rest[1..]
  }

  lemma {:induction false} SplitAfterToken(a: string, rest: string)
    requires ',' !in a
    ensures Split(a + rest) == [a + Split(rest)[0]] + Split(rest)[1..]
    decreases |a|
  {
    if |a| > 0 {
      assert (a + rest)[1..] == a[1..] + rest;
      SplitAfterToken(a[1..], rest);
      assert [a[0]] + (a[1..] + Split(rest)[0]) == a + Split(rest)[0];
    } else {
      var r := Split(rest);
      assert a + rest == rest && a + r[0] == r[0];
      assert r == [r[0]] + r[1..];
    }
  }

  /** Splitting undoes joining, as long as no token holds a comma. */
  lemma {:induction false} SplitJoin(fs: seq<string>)
    requires |fs| >= 1
    requires forall i :: 0 <= i < |fs| ==> ',' !in fs[i]
    ensures Split(Join(fs)) == fs
    decreases |fs|
  {
    if |fs| == 1 {
      SplitAfterToken(fs[0], "");
      assert fs[0] + "" == fs[0];
    } else {
      SplitJoin(fs[1..]);
      var tail := "," + Join(fs[1..]);
      assert Split(tail) == [""] + fs[1..];
      SplitAfterToken(fs[0], tail);
      assert Join(fs) == fs[0] + tail;
      assert fs[0] + "" == fs[0];
    }
  }

  /** Joining undoes splitting. */
  lemma {:induction false} JoinSplit(s: string)
    ensures Join(Split(s)) == s
    decreases |s|
  {
    if |s| > 0 {
      JoinSplit(s[1..]);
      var rest := Split(s[1..]);
      if s[0] == ',' {
        assert ([""] + rest)[1..] == rest;
      } else {
        var r := [[s[0]] + rest[0]] + rest[1..];
        assert r[1..] == rest[1..];
        if |rest| > 1 {
          assert Join(rest) == rest[0] + "," + Join(rest[1..]);
        }
        assert s == [s[0]] + s[1..];
      }
    }
  }

  // ---------------------------------------------------------------------
  // Commands
  // ---------------------------------------------------------------------

  function Fields(c: Command): seq<string> {
    match c
    case Move(d, e) => [DirectionName(d), EdgeName(e)]
    case SpiralStart(n) => ["SPIRAL", "START", IntToDecimal(n)]
    case SpiralStop => ["SPIRAL", "STOP"]
    case SpiralSpeed(n) => ["SPIRAL", "SPEED", IntToDecimal(n)]
  }

  function FromFields(fs: seq<string>): Option<Command> {
    if |fs| == 2 && fs[0] == "SPIRAL" && fs[1] == "STOP" then Some(SpiralStop)
    else if |fs| == 2 && DirectionOf(fs[0]).Some? && EdgeOf(fs[1]).Some? then
      Some(Move(DirectionOf(fs[0]).value, EdgeOf(fs[1]).value))
    else if |fs| == 3 && fs[0] == "SPIRAL" && fs[1] == "START" && ParseInt(fs[2]).Some? then
      Some(SpiralStart(ParseInt(fs[2]).value))
    else if |fs| == 3 && fs[0] == "SPIRAL" && fs[1] == "SPEED" && ParseInt(fs[2]).Some? then
      Some(SpiralSpeed(ParseInt(fs[2]).value))
    else None
  }

  lemma {:induction false} JoinKeepsOut(fs: seq<string>, c: char)
    requires c != ','
    requires forall i :: 0 <= i < |fs| ==> c !in fs[i]
    ensures c !in Join(fs)
    decreases |fs|
  {
    if |fs| > 1 {
      JoinKeepsOut(fs[1..], c);
    }
  }

  lemma FieldsFree(c: Command)
    ensures forall i :: 0 <= i < |Fields(c)| ==> ',' !in Fields(c)[i] && '\n' !in Fields(c)[i]
  {
  }

  /** The exact text written to the output stream for a command. */
  function Encode(c: Command): (s: string)
    ensures |s| >= 1 && s[|s| - 1] == '\n'
    ensures '\n' !in s[..|s| - 1]
  {
    var body := Join(Fields(c));
    assert '\n' !in body by {
      FieldsFree(c);
      JoinKeepsOut(Fields(c), '\n');
    }
    var s := body + "\n";
    assert s[..|s| - 1] == body;
    s
  }

  /** Every character is 7-bit ASCII, so its UTF-8 encoding is one byte per character. */
  predicate Ascii(s: string) {
    forall i :: 0 <= i < |s| ==> s[i] < 128 as char
  }

  lemma {:induction false} JoinAscii(fs: seq<string>)
    requires forall i :: 0 <= i < |fs| ==> Ascii(fs[i])
    ensures Ascii(Join(fs))
    decreases |fs|
  {
    if |fs| > 1 {
      JoinAscii(fs[1..]);
      assert Join(fs) == fs[0] + "," + Join(fs[1..]);
    }
  }

  lemma FieldsAscii(c: Command)
    ensures forall i :: 0 <= i < |Fields(c)| ==> Ascii(Fields(c)[i])
  {
    match c
    case Move(d, e) =>
    case SpiralStart(n) => assert Ascii(IntToDecimal(n));
    case SpiralStop =>
    case SpiralSpeed(n) => assert Ascii(IntToDecimal(n));
  }

  /**
   * The line of every command is plain ASCII, so the app's UTF-8 conversion
   * writes exactly one byte per character.
   */
  lemma EncodeAscii(c: Command)
    ensures forall i :: 0 <= i < |Encode(c)| ==> Encode(c)[i] < 128 as char
  {
    FieldsAscii(c);
    JoinAscii(Fields(c));
    var body := Join(Fields(c));
    assert Encode(c) == body + "\n";
  }

  /** The reference parser: a line is a command exactly when its tokens spell one. */
  function Decode(s: string): Option<Command> {
    if |s| == 0 || s[|s| - 1] != '\n' then None
    else FromFields(Split(s[..|s| - 1]))
  }

  lemma FieldsOfFromFields(fs: seq<string>, c: Command)
    requires FromFields(fs) == Some(c)
    ensures Fields(c) == fs
  {
    if |fs| == 2 && fs[0] == "SPIRAL" && fs[1] == "STOP" {
    } else if |fs| == 2 && DirectionOf(fs[0]).Some? && EdgeOf(fs[1]).Some? {
    } else if |fs| == 3 && fs[0] == "SPIRAL" && fs[1] == "START" && ParseInt(fs[2]).Some? {
      DecimalOfParseInt(fs[2], c.speed);
    } else {
      DecimalOfParseInt(fs[2], c.speed);
    }
  }

  lemma FromFieldsOfFields(c: Command)
    ensures FromFields(Fields(c)) == Some(c)
  {
    match c
    case Move(d, e) =>
      assert DirectionOf(DirectionName(d)) == Some(d);
      assert EdgeOf(EdgeName(e)) == Some(e);
    case SpiralStart(n) => ParseIntOfDecimal(n);
    case SpiralStop =>
    case SpiralSpeed(n) => ParseIntOfDecimal(n);
  }

  /** Every command reads back from its own wire text. */
  lemma DecodeEncode(c: Command)
    ensures Decode(Encode(c)) == Some(c)
  {
    var fs := Fields(c);
    FieldsFree(c);
    SplitJoin(fs);
    var s := Encode(c);
    assert s[..|s| - 1] == Join(fs);
    FromFieldsOfFields(c);
  }

  /** A line decodes to c exactly when it is c's wire text: the format is unambiguous. */
  lemma DecodeIsInverse(s: string, c: Command)
    ensures Decode(s) == Some(c) <==> s == Encode(c)
  {
    if Decode(s) == Some(c) {
      var body := s[..|s| - 1];
      FieldsOfFromFields(Split(body), c);
      JoinSplit(body);
      assert s == body + "\n";
    }
    if s == Encode(c) {
      DecodeEncode(c);
    }
  }

  /** Two different commands never share a wire text. */
  lemma EncodeInjective(c1: Command, c2: Command)
    requires Encode(c1) == Encode(c2)
    ensures c1 == c2
  {
    DecodeEncode(c1);
    DecodeEncode(c2);
  }
}
