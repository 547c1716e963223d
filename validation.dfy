/**
 * Turning request-validation errors into the API's error list: each error
 * becomes a field name and a message. An error's location is a path whose
 * first element says where the value came from (body, query, ...); the
 * field name is the rest of the path joined with ".", or the single element
 * when the path has only one.
 */
module Validation {
  /** One element of an error location: a key, or a position in a list. */
  datatype LocPart = Key(name: string) | Position(index: int)

  /** A validation error as the framework reports it. */
  datatype ValidationError = ValidationError(loc: seq<LocPart>, msg: string)

  /** An entry of the API's error list. */
  datatype FieldError = FieldError(field: string, message: string)

  /** The decimal digits of a natural number, most significant first, without leading zeros. */
  function NatText(n: nat): (s: string)
    decreases n
  {
    if n < 10 then [Digit(n)] else NatText(n / 10) + [Digit(n % 10)]
  }

  /** The character of one decimal digit. */
  function Digit(d: nat): (c: char)
    requires d < 10
    ensures '0' <= c <= '9'
  {
    "0123456789"[d]
  }

  /** An integer as Python's str writes it: a minus sign for negatives, then the digits. */
  function IntText(i: int): string
  {
    if i < 0 then "-" + NatText(-i) else NatText(i)
  }

  /** A location element as str writes it. */
  function PartText(p: LocPart): string
  {
    match p
    case Key(name) => name
    case Position(index) => IntText(index)
  }

  /** The parts joined with "." between each two. */
  function JoinDot(parts: seq<string>): (s: string)
    requires parts != []
    ensures parts[0] <= s
  {
    if |parts| == 1 then parts[0] else parts[0] + "." + JoinDot(parts[1..])
  }

  /** Every element's text, in order. */
  function PartTexts(loc: seq<LocPart>): (texts: seq<string>)
    ensures |texts| == |loc|
    ensures forall k :: 0 <= k < |loc| ==> texts[k] == PartText(loc[k])
  {
    seq(|loc|, k requires 0 <= k < |loc| => PartText(loc[k]))
  }

  /** The field an error is reported under. */
  function FieldOf(loc: seq<LocPart>): (field: string)
    requires loc != []
    ensures |loc| == 1 ==> field == PartText(loc[0])
    ensures |loc| > 1 ==> PartText(loc[1]) <= field
  {
    if |loc| > 1 then JoinDot(PartTexts(loc[1..])) else PartText(loc[0])
  }

  /**
   * format_validation_errors: one entry per error, in the same order, with
   * the field its location names and the error's message.
   */
  method FormatValidationErrors(errors: seq<ValidationError>) returns (formatted: seq<FieldError>)
    requires forall k :: 0 <= k < |errors| ==> errors[k].loc != []
    ensures |formatted| == |errors|
    ensures forall k :: 0 <= k < |errors| ==>
      formatted[k] == FieldError(FieldOf(errors[k].loc), errors[k].msg)
  {
    formatted := [];
    for i := 0 to |errors|
      invariant |formatted| == i
      invariant forall k :: 0 <= k < i ==> formatted[k] == FieldError(FieldOf(errors[k].loc), errors[k].msg)
    {
      var loc := errors[i].loc;
      var field := if |loc| > 1 then JoinDot(PartTexts(loc[1..])) else PartText(loc[0]);
      formatted := formatted + [FieldError(field, errors[i].msg)];
    }
  }

  /** A string cut at every ".", so that SplitDot(JoinDot(parts)) gives the parts back. */
  function SplitDot(s: string): (pieces: seq<string>)
    ensures pieces != []
  {
    if s == [] then [""]
    else if s[0] == '.' then [""] + SplitDot(s[1..])
    else
      var rest := SplitDot(s[1..]);
      [[s[0]] + rest[0]] + rest[1..]
  }

  /** A dot-free prefix joins the first piece of what follows it. */
  lemma {:induction false} SplitDotPrefix(a: string, rest: string)
    requires '.' !in a
    ensures SplitDot(a + rest) == [a + SplitDot(rest)[0]] + SplitDot(rest)[1..]
  {
    if a != [] {
      assert (a + rest)[0] == a[0] && (a + rest)[1..] == a[1..] + rest;
      SplitDotPrefix(a[1..], rest);
      assert [a[0]] + (a[1..] + SplitDot(rest)[0]) == a + SplitDot(rest)[0];
    } else {
      var pieces := SplitDot(rest);
      assert a + rest == rest && a + pieces[0] == pieces[0];
      assert [pieces[0]] + pieces[1..] == pieces;
    }
  }

  /** Joining dot-free parts and cutting at the dots gives the parts back. */
  lemma {:induction false} SplitJoin(parts: seq<string>)
    requires parts != []
    requires forall k :: 0 <= k < |parts| ==> '.' !in parts[k]
    ensures SplitDot(JoinDot(parts)) == parts
  {
    if |parts| == 1 {
      SplitDotPrefix(parts[0], "");
      assert parts[0] + "" == parts[0];
    } else {
      SplitJoin(parts[1..]);
      var tail := "." + JoinDot(parts[1..]);
      assert JoinDot(parts) == parts[0] + tail;
      SplitDotPrefix(parts[0], tail);
      assert tail[0] == '.' && tail[1..] == JoinDot(parts[1..]);
      assert SplitDot(tail) == [""] + parts[1..];
      assert parts[0] + "" == parts[0];
      assert [parts[0]] + parts[1..] == parts;
    }
  }

  /** The text of a natural number is made of decimal digits only. */
  lemma {:induction false} NatTextDigits(n: nat)
    decreases n
    ensures forall k :: 0 <= k < |NatText(n)| ==> '0' <= NatText(n)[k] <= '9'
  {
    if n >= 10 {
      NatTextDigits(n / 10);
    }
  }

  /** The value the decimal digits stand for. */
  function DigitsValue(s: string): int
  {
    if s == [] then 0 else DigitsValue(s[..|s| - 1]) * 10 + (s[|s| - 1] as int - '0' as int)
  }

  /** Reading NatText back gives the number: str and int are inverse on naturals. */
  lemma {:induction false} NatTextValue(n: nat)
    decreases n
    ensures DigitsValue(NatText(n)) == n
  {
    if n >= 10 {
      NatTextValue(n / 10);
      var s := NatText(n);
      assert s[..|s| - 1] == NatText(n / 10);
    }
  }

  /** A location element written by str holds a dot only if it is a key with a dot in it. */
  lemma PartTextDotFree(p: LocPart)
    requires p.Key? ==> '.' !in p.name
    ensures '.' !in PartText(p)
  {
    if p.Position? {
      var i := p.index;
      NatTextDigits(if i < 0 then -i else i);
      if i < 0 {
        assert PartText(p) == "-" + NatText(-i);
        assert forall k :: 0 < k < |PartText(p)| ==> PartText(p)[k] == NatText(-i)[k - 1];
      }
    }
  }

  /**
   * When no key of a location after its first element holds a dot, the
   * field name of a location longer than one cuts at its dots into exactly
   * the texts of the elements after the first.
   */
  lemma FieldSplits(loc: seq<LocPart>)
    requires |loc| > 1
    requires forall k :: 1 <= k < |loc| ==> loc[k].Key? ==> '.' !in loc[k].name
    ensures SplitDot(FieldOf(loc)) == PartTexts(loc[1..])
  {
    var texts := PartTexts(loc[1..]);
    forall k | 0 <= k < |texts|
      ensures '.' !in texts[k]
    {
      PartTextDotFree(loc[1..][k]);
    }
    SplitJoin(texts);
  }
}
