/** The wire form of a list of inputs: binary, then hex, then joined by commas; and its parser. */
module CsvInputs {
  import opened Types

  newtype byte = b: int | 0 <= b < 256

  datatype CsvError = BadHex | BadInput

  // ---- hex ----

  function HexDigit(n: int): char
    requires 0 <= n < 16
  {
    "0123456789abcdef"[n]
  }

  /** Both letter cases are digits. */
  function HexValue(c: char): Option<int> {
    if '0' <= c <= '9' then Some(c as int - '0' as int)
    else if 'a' <= c <= 'f' then Some(c as int - 'a' as int + 10)
    else if 'A' <= c <= 'F' then Some(c as int - 'A' as int + 10)
    else None
  }

  lemma HexValueRange(c: char)
    ensures HexValue(c).Some? ==> 0 <= HexValue(c).value < 16
  {
  }

  function EncodeHex(bytes: seq<byte>): string {
    if bytes == [] then []
    else [HexDigit(bytes[0] as int / 16), HexDigit(bytes[0] as int % 16)] + EncodeHex(bytes[1..])
  }

  function DecodeHex(s: string): Option<seq<byte>> {
    if |s| == 0 then Some([])
    else if |s| == 1 || HexValue(s[0]).None? || HexValue(s[1]).None? then None
    else
      var rest := DecodeHex(s[2..]);
      HexValueRange(s[0]);
      HexValueRange(s[1]);
      if rest.None? then None
      else Some([(16 * HexValue(s[0]).value + HexValue(s[1]).value) as byte] + rest.value)
  }

  lemma HexDigitIsDigit(n: int)
    requires 0 <= n < 16
    ensures HexValue(HexDigit(n)) == Some(n) && HexDigit(n) != ','
  {
    assert "0123456789abcdef" == ['0','1','2','3','4','5','6','7','8','9','a','b','c','d','e','f'];
  }

  lemma {:induction false} HexRoundTrip(bytes: seq<byte>)
    ensures DecodeHex(EncodeHex(bytes)) == Some(bytes) && ',' !in EncodeHex(bytes)
  {
    if bytes != [] {
      HexRoundTrip(bytes[1..]);
      HexDigitIsDigit(bytes[0] as int / 16);
      HexDigitIsDigit(bytes[0] as int % 16);
      var s := EncodeHex(bytes);
      assert s[2..] == EncodeHex(bytes[1..]);
      assert bytes == [bytes[0]] + bytes[1..];
    }
  }

  /** Two digits a byte, the higher one first; either letter case is read. */
  lemma HexOfAByte(s: string)
    requires |s| == 2 && s[0] == '1' && (s[1] == 'f' || s[1] == 'F')
    ensures DecodeHex(s).Some? && DecodeHex(s).value == [0x1f] && EncodeHex([0x1f]) == ['1', 'f']
  {
    var b: byte := 0x1f;
    assert b as int / 16 == 1 && b as int % 16 == 15 && [b][1..] == [];
    assert "0123456789abcdef" == ['0','1','2','3','4','5','6','7','8','9','a','b','c','d','e','f'];
    assert HexDigit(1) == '1' && HexDigit(15) == 'f';
    assert DecodeHex(s[2..]) == Some([]);
    assert HexValue(s[0]) == Some(1) && HexValue(s[1]) == Some(15);
    assert DecodeHex(s).value == [b] + [];
  }

  // ---- commas ----

  /** `split(',')`: never empty, one part more than there are commas. */
  function Split(s: string): (parts: seq<string>)
    ensures |parts| >= 1
  {
    if s == [] then [[]]
    else if s[0] == ',' then [[]] + Split(s[1..])
    else
      var rest := Split(s[1..]);
      [[s[0]] + rest[0]] + rest[1..]
  }

  function Join(parts: seq<string>): string {
    if parts == [] then []
    else if |parts| == 1 then parts[0]
    else parts[0] + "," + Join(parts[1..])
  }

  lemma {:induction false} SplitFirst(part: string, tail: string)
    requires ',' !in part
    ensures Split(part + "," + tail) == [part] + Split(tail)
  {
    var s := part + "," + tail;
    if part == [] {
      assert s[1..] == tail;
    } else {
      SplitFirst(part[1..], tail);
      assert s[1..] == part[1..] + "," + tail;
      assert part == [part[0]] + part[1..];
    }
  }

  lemma {:induction false} SplitWhole(part: string)
    requires ',' !in part
    ensures Split(part) == [part]
  {
    if part != [] {
      SplitWhole(part[1..]);
      assert part == [part[0]] + part[1..];
    }
  }

  /** Splitting undoes joining. */
  lemma {:induction false} SplitJoin(parts: seq<string>)
    requires parts != [] && forall p :: p in parts ==> ',' !in p
    ensures Split(Join(parts)) == parts
  {
    if |parts| == 1 {
      SplitWhole(parts[0]);
    } else {
      SplitJoin(parts[1..]);
      SplitFirst(parts[0], Join(parts[1..]));
      assert parts == [parts[0]] + parts[1..];
    }
  }

  /** Joining undoes splitting. */
  lemma {:induction false} JoinSplit(s: string)
    ensures Join(Split(s)) == s
  {
    if s != [] {
      JoinSplit(s[1..]);
      var rest := Split(s[1..]);
      assert s == [s[0]] + s[1..];
      if s[0] == ',' {
        assert ([[]] + rest)[1..] == rest;
      } else {
        var parts := [[s[0]] + rest[0]] + rest[1..];
        assert parts[1..] == rest[1..];
        if |rest| > 1 {
          assert Join(parts) == [s[0]] + (rest[0] + "," + Join(rest[1..]));
        }
      }
    }
  }

  // ---- lists of inputs ----

  function Encoded(inputs: seq<PsbtInput>, encode: PsbtInput -> seq<byte>): (parts: seq<string>)
    ensures |parts| == |inputs| && forall i :: 0 <= i < |inputs| ==> parts[i] == EncodeHex(encode(inputs[i]))
  {
    seq(|inputs|, i requires 0 <= i < |inputs| => EncodeHex(encode(inputs[i])))
  }

  lemma EncodedAppend(inputs: seq<PsbtInput>, input: PsbtInput, encode: PsbtInput -> seq<byte>)
    ensures Encoded(inputs + [input], encode) == Encoded(inputs, encode) + [EncodeHex(encode(input))]
  {
  }

  function Print(inputs: seq<PsbtInput>, encode: PsbtInput -> seq<byte>): string {
    Join(Encoded(inputs, encode))
  }

  function ParseOne(part: string, decode: seq<byte> -> Option<PsbtInput>): Result<PsbtInput, CsvError> {
    match DecodeHex(part)
    case None => Err(BadHex)
    case Some(bytes) => (match decode(bytes) case None => Err(BadInput) case Some(x) => Ok(x))
  }

  /** All parts, or the error of the first part that is wrong. */
  function ParseAll(parts: seq<string>, decode: seq<byte> -> Option<PsbtInput>): Result<seq<PsbtInput>, CsvError> {
    if parts == [] then Ok([])
    else
      var before := ParseAll(parts[..|parts| - 1], decode);
      if before.Err? then before
      else match ParseOne(parts[|parts| - 1], decode)
           case Err(e) => Err(e)
           case Ok(x) => Ok(before.value + [x])
  }

  lemma {:induction false} FirstErrorStays(parts: seq<string>, n: nat, decode: seq<byte> -> Option<PsbtInput>)
    requires n <= |parts| && ParseAll(parts[..n], decode).Err?
    ensures ParseAll(parts, decode) == ParseAll(parts[..n], decode)
    decreases |parts|
  {
    if n == |parts| {
      assert parts[..n] == parts;
    } else {
      assert parts[..|parts| - 1][..n] == parts[..n];
      FirstErrorStays(parts[..|parts| - 1], n, decode);
    }
  }

  /** Parses the comma joined text. The list is never empty: the check for it cannot fail. */
  method CsvHexToBdkInput(csv: string, decode: seq<byte> -> Option<PsbtInput>)
    returns (r: Result<seq<PsbtInput>, CsvError>)
    ensures r == ParseAll(Split(csv), decode)
    ensures r.Ok? ==> |r.value| == |Split(csv)| >= 1
  {
    var inputs: seq<PsbtInput> := [];
    var parts := Split(csv);
    for n := 0 to |parts|
      invariant ParseAll(parts[..n], decode) == Ok(inputs) && |inputs| == n
    {
      assert parts[..n + 1][..n] == parts[..n];
      var input := ParseOne(parts[n], decode);
      if input.Err? {
        FirstErrorStays(parts, n + 1, decode);
        return Err(input.error);
      }
      inputs := inputs + [input.value];
    }
    assert parts[..|parts|] == parts;
    if |inputs| == 0 {
      assert false;
    }
    return Ok(inputs);
  }

  lemma {:induction false} ParseEncoded(inputs: seq<PsbtInput>, encode: PsbtInput -> seq<byte>, decode: seq<byte> -> Option<PsbtInput>)
    requires forall x :: decode(encode(x)) == Some(x)
    ensures ParseAll(Encoded(inputs, encode), decode) == Ok(inputs)
  {
    if inputs != [] {
      var rest, last := inputs[..|inputs| - 1], inputs[|inputs| - 1];
      ParseEncoded(rest, encode, decode);
      assert inputs == rest + [last];
      EncodedAppend(rest, last, encode);
      assert Encoded(inputs, encode)[..|inputs| - 1] == Encoded(rest, encode);
      HexRoundTrip(encode(last));
    }
  }

  /** Given a byte codec that round trips, a list of inputs arrives as it was sent, in order,
      exactly when it is not empty. */
  lemma RoundTrip(inputs: seq<PsbtInput>, encode: PsbtInput -> seq<byte>, decode: seq<byte> -> Option<PsbtInput>)
    requires forall x :: decode(encode(x)) == Some(x)
    ensures ParseAll(Split(Print(inputs, encode)), decode) == Ok(inputs) <==> inputs != []
  {
    if inputs != [] {
      forall p | p in Encoded(inputs, encode) ensures ',' !in p {
        var i :| 0 <= i < |inputs| && p == EncodeHex(encode(inputs[i]));
        HexRoundTrip(encode(inputs[i]));
      }
      SplitJoin(Encoded(inputs, encode));
      ParseEncoded(inputs, encode, decode);
    } else {
      assert Split("") == [[]];
      assert ParseAll([[]], decode).Ok? ==> |ParseAll([[]], decode).value| == 1;
    }
  }

  function WitnessValues(inputs: seq<PsbtInput>): (values: seq<Option<nat>>)
    ensures |values| == |inputs| && forall i :: 0 <= i < |inputs| ==> values[i] == inputs[i].witnessValue
  {
    seq(|inputs|, i requires 0 <= i < |inputs| => inputs[i].witnessValue)
  }
}
