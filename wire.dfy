/**
 * The text of one state line, as the server writes it (`to_string` of eight
 * integers joined by single spaces and ended by a newline) and as the client
 * reads it back (eight `stringstream >> int` extractions from a received
 * buffer that is read as a C string).
 */
module Wire {

  import opened Options

  /** Bounds of the 32-bit `int` that both programs extract into. */
  const INT_MIN := -0x8000_0000
  const INT_MAX := 0x7FFF_FFFF

  /** The eight fields of a state line, in wire order; framing is relative to the recipient. */
  datatype Update = Update(
    selfRow: int, selfCol: int,
    otherRow: int, otherCol: int,
    coinRow: int, coinCol: int,
    selfScore: int, otherScore: int)

  function Fields(u: Update): seq<int>
  {
    [u.selfRow, u.selfCol, u.otherRow, u.otherCol, u.coinRow, u.coinCol, u.selfScore, u.otherScore]
  }

  predicate InIntRange(v: int)
  {
    INT_MIN <= v <= INT_MAX
  }

  predicate FitsInts(u: Update)
  {
    && InIntRange(u.selfRow) && InIntRange(u.selfCol)
    && InIntRange(u.otherRow) && InIntRange(u.otherCol)
    && InIntRange(u.coinRow) && InIntRange(u.coinCol)
    && InIntRange(u.selfScore) && InIntRange(u.otherScore)
  }

  // ---------------------------------------------------------------------------
  // Writing: to_string

  predicate IsDigit(c: char)
  {
    '0' <= c <= '9'
  }

  predicate AllDigits(s: string)
  {
    forall i :: 0 <= i < |s| ==> IsDigit(s[i])
  }

  function DigitChar(d: nat): (c: char)
    requires d < 10
    ensures IsDigit(c)
  {
    (48 + d) as char
  }

  function DigitValue(c: char): nat
    requires IsDigit(c)
  {
    c as int - '0' as int
  }

  /** The number a run of decimal digits denotes. */
  function DecimalValue(ds: string): nat
    requires AllDigits(ds)
  {
    if ds == [] then 0
    else 10 * DecimalValue(ds[..|ds| - 1]) + DigitValue(ds[|ds| - 1])
  }

  /** `to_string` of a non-negative number: its decimal digits, most significant first. */
  function NatToDecimal(n: nat): string
    decreases n
  {
    if n < 10 then [DigitChar(n)] else NatToDecimal(n / 10) + [DigitChar(n % 10)]
  }

  /** The digits written for a number are a non-empty digit run that denotes it. */
  lemma {:induction false} NatToDecimalDenotes(n: nat)
    ensures var s := NatToDecimal(n); |s| > 0 && AllDigits(s) && DecimalValue(s) == n
    decreases n
  {
    if n >= 10 {
      NatToDecimalDenotes(n / 10);
      var prefix := NatToDecimal(n / 10);
      var s := NatToDecimal(n);
      assert s == prefix + [DigitChar(n % 10)];
      assert s[..|s| - 1] == prefix;
    }
  }

  /** `to_string` of any `int`: a minus sign before the magnitude when negative. */
  function IntToDecimal(v: int): string
  {
    if v < 0 then "-" + NatToDecimal(-v) else NatToDecimal(v)
  }

  /**
   * What `to_string` writes is a non-empty run of digits, with a leading
   * minus exactly when the number is negative and nowhere else.
   */
  lemma IntToDecimalShape(v: int)
    ensures var s := IntToDecimal(v);
      && |s| > 0 && (s[0] == '-' || IsDigit(s[0]))
      && (s[0] == '-' <==> v < 0)
      && (forall i :: 1 <= i < |s| ==> IsDigit(s[i]))
      && forall i :: 0 <= i < |s| ==> IsDigit(s[i]) || s[i] == '-'
  {
    var m := if v < 0 then -v else v;
    NatToDecimalDenotes(m);
    if v < 0 {
      var s := IntToDecimal(v);
      assert forall i :: 1 <= i < |s| ==> s[i] == NatToDecimal(m)[i - 1];
    }
  }

  /** The fields written one after another, separated by single spaces, ended by a newline. */
  function Line(fs: seq<int>): string
    requires |fs| > 0
  {
    if |fs| == 1 then IntToDecimal(fs[0]) + "\n"
    else IntToDecimal(fs[0]) + " " + Line(fs[1..])
  }

  /** One line of text: it ends with the only newline it holds, and it holds no NUL. */
  predicate OneLine(line: string)
  {
    && |line| > 0 && line[|line| - 1] == '\n'
    && (forall i :: 0 <= i < |line| - 1 ==> line[i] != '\n')
    && (forall i :: 0 <= i < |line| ==> line[i] != '\0')
  }

  /** Every line the server writes is one line of text. */
  lemma {:induction false} LineShape(fs: seq<int>)
    requires |fs| > 0
    ensures OneLine(Line(fs))
    decreases |fs|
  {
    var head := IntToDecimal(fs[0]);
    IntToDecimalShape(fs[0]);
    if |fs| == 1 {
      assert Line(fs) == head + "\n";
    } else {
      LineShape(fs[1..]);
      LineShapeStep(head, Line(fs[1..]));
    }
  }

  /** A number and a space put before a line of text leave a line of text. */
  lemma LineShapeStep(head: string, tail: string)
    requires forall i :: 0 <= i < |head| ==> IsDigit(head[i]) || head[i] == '-'
    requires OneLine(tail)
    ensures OneLine(head + " " + tail)
  {
    var line := head + " " + tail;
    assert forall i :: |head| + 1 <= i < |line| ==> line[i] == tail[i - |head| - 1];
  }

  /** The line the server sends for one update. */
  function Format(u: Update): string
  {
    Line(Fields(u))
  }

  // ---------------------------------------------------------------------------
  // Reading: stringstream >> int

  /** White space as `isspace` sees it in the C locale. */
  predicate IsSpace(c: char)
  {
    c == ' ' || c == '\t' || c == '\n' || c == '\r' || c == '\U{B}' || c == '\U{C}'
  }

  predicate IsSuffix(r: string, s: string)
  {
    |r| <= |s| && r == s[|s| - |r|..]
  }

  /** What is left after the leading white space an extraction skips. */
  function SkipSpace(s: string): (r: string)
    ensures IsSuffix(r, s)
    ensures r == [] || !IsSpace(r[0])
    ensures forall i :: 0 <= i < |s| - |r| ==> IsSpace(s[i])
  {
    if s != [] && IsSpace(s[0]) then
      var r := SkipSpace(s[1..]);
      assert s[1..][|s| - 1 - |r|..] == s[|s| - |r|..];
      assert forall i :: 1 <= i < |s| - |r| ==> s[i] == s[1..][i - 1];
      r
    else s
  }

  /** The length of the run of digits at the front of `s`. */
  function DigitRun(s: string): (n: nat)
    ensures n <= |s| && AllDigits(s[..n])
    ensures n < |s| ==> !IsDigit(s[n])
  {
    if s != [] && IsDigit(s[0]) then
      var n := 1 + DigitRun(s[1..]);
      assert forall i :: 1 <= i < n ==> s[..n][i] == s[1..][..n - 1][i - 1];
      n
    else 0
  }

  /**
   * One `>> int` extraction: white space is skipped, then the number is
   * converted from what follows.
   */
  function ReadInt(s: string): (r: Option<(int, string)>)
    ensures r.Some? ==> InIntRange(r.value.0) && IsSuffix(r.value.1, s) && |r.value.1| < |s|
  {
    Convert(SkipSpace(s))
  }

  /**
   * The conversion of an extraction, on text that starts where the white space
   * ends: an optional sign, then the longest run of digits; no digits, or a
   * value outside `int`, fails. On success the value and the unread rest of
   * the text are returned.
   */
  function Convert(t: string): (r: Option<(int, string)>)
    ensures r.Some? ==> InIntRange(r.value.0) && IsSuffix(r.value.1, t) && |r.value.1| < |t|
  {
    var signed := |t| > 0 && (t[0] == '-' || t[0] == '+');
    var u := if signed then t[1..] else t;
    var n := DigitRun(u);
    if n == 0 then None
    else
      var magnitude: int := DecimalValue(u[..n]);
      var v: int := if signed && t[0] == '-' then 0 - magnitude else magnitude;
      if InIntRange(v) then Some((v, u[n..])) else None
  }

  /** `n` extractions chained with `>>`; the whole chain fails when one of them fails. */
  function ReadInts(s: string, n: nat): (r: Option<seq<int>>)
    ensures r.Some? ==> |r.value| == n && forall k :: 0 <= k < n ==> InIntRange(r.value[k])
    decreases n
  {
    if n == 0 then Some([])
    else
      var first := ReadInt(s);
      if first.None? then None
      else
        var others := ReadInts(first.value.1, n - 1);
        if others.None? then None
        else Some([first.value.0] + others.value)
  }

  /** The text a receive buffer holds when read as a C string: everything before the first NUL. */
  function CString(buf: string): (r: string)
    ensures |r| <= |buf| && r == buf[..|r|]
    ensures '\0' !in r
    ensures |r| < |buf| ==> buf[|r|] == '\0'
  {
    if buf == [] || buf[0] == '\0' then []
    else
      var r := [buf[0]] + CString(buf[1..]);
      assert forall i :: 1 <= i < |r| ==> r[i] == buf[1..][i - 1];
      r
  }

  /** The client's parse of a receive buffer: its first eight integers, or nothing. */
  function Parse(buf: string): Option<Update>
  {
    match ReadInts(CString(buf), 8)
    case None => None
    case Some(fs) => Some(Update(fs[0], fs[1], fs[2], fs[3], fs[4], fs[5], fs[6], fs[7]))
  }

  // ---------------------------------------------------------------------------
  // The round trip

  /** The digit run at the front of `ds + rest` is exactly `ds` when `rest` does not go on with a digit. */
  lemma {:induction false} DigitRunOf(ds: string, rest: string)
    requires AllDigits(ds)
    requires rest == [] || !IsDigit(rest[0])
    ensures DigitRun(ds + rest) == |ds|
  {
    if ds == [] {
      assert ds + rest == rest;
    } else {
      assert (ds + rest)[0] == ds[0];
      assert (ds + rest)[1..] == ds[1..] + rest;
      DigitRunOf(ds[1..], rest);
    }
  }

  /** The conversion reads back a number written by `to_string`, up to the first non-digit. */
  lemma ConvertDecimal(v: int, rest: string)
    requires InIntRange(v)
    requires rest == [] || !IsDigit(rest[0])
    ensures Convert(IntToDecimal(v) + rest) == Some((v, rest))
  {
    var ds := NatToDecimal(if v < 0 then -v else v);
    NatToDecimalDenotes(if v < 0 then -v else v);
    var u := ds + rest;
    DigitRunOf(ds, rest);
    assert u[..|ds|] == ds;
    assert u[|ds|..] == rest;
    if v < 0 {
      var t := "-" + ds + rest;
      assert t == IntToDecimal(v) + rest;
      assert t[1..] == u;
    } else {
      assert IntToDecimal(v) + rest == u;
      assert u[0] == ds[0];
    }
  }

  /** A number written by `to_string` and followed by a non-digit is read back whole. */
  lemma ReadIntDecimal(v: int, rest: string)
    requires InIntRange(v)
    requires rest == [] || !IsDigit(rest[0])
    ensures ReadInt(IntToDecimal(v) + rest) == Some((v, rest))
  {
    var s := IntToDecimal(v) + rest;
    ConvertDecimal(v, rest);
    IntToDecimalShape(v);
    assert s[0] == IntToDecimal(v)[0];
    NoSpaceToSkip(s);
  }

  lemma NoSpaceToSkip(s: string)
    requires s != [] && !IsSpace(s[0])
    ensures SkipSpace(s) == s
  { }

  /** A space before the text changes nothing for an extraction. */
  lemma ReadIntAfterSpace(s: string)
    ensures ReadInt(" " + s) == ReadInt(s)
  {
    assert (" " + s)[1..] == s;
    assert SkipSpace(" " + s) == SkipSpace(s);
  }

  lemma ReadIntsAfterSpace(s: string, n: nat)
    requires n > 0
    ensures ReadInts(" " + s, n) == ReadInts(s, n)
  {
    ReadIntAfterSpace(s);
  }

  /** A text whose first number is followed only by a newline holds exactly that one number. */
  lemma ReadOnlyField(v: int, line: string)
    requires ReadInt(line) == Some((v, "\n"))
    ensures ReadInts(line, 1) == Some([v])
  {
    assert ReadInts("\n", 0) == Some([]);
    assert [v] + [] == [v];
  }

  /** The last field of a line: one number, then the newline. */
  lemma ReadLastField(v: int)
    requires InIntRange(v)
    ensures ReadInts(Line([v]), 1) == Some([v])
  {
    var line := IntToDecimal(v) + "\n";
    assert Line([v]) == line;
    ReadIntDecimal(v, "\n");
    ReadOnlyField(v, line);
  }

  /** A field followed by a space: it is read, and the reading goes on after the space. */
  lemma ReadFieldThenSpace(v: int, tail: string, vs: seq<int>)
    requires InIntRange(v) && |vs| > 0
    requires ReadInts(tail, |vs|) == Some(vs)
    ensures ReadInts(IntToDecimal(v) + " " + tail, |vs| + 1) == Some([v] + vs)
  {
    var rest := " " + tail;
    assert IntToDecimal(v) + " " + tail == IntToDecimal(v) + rest;
    ReadIntDecimal(v, rest);
    ReadIntsAfterSpace(tail, |vs|);
  }

  lemma LineCons(fs: seq<int>)
    requires |fs| > 1
    ensures Line(fs) == IntToDecimal(fs[0]) + " " + Line(fs[1..])
  {
  }

  /** Reading as many numbers as a line holds gives back its fields. */
  lemma {:induction false} ReadLine(fs: seq<int>)
    requires |fs| > 0
    requires forall k :: 0 <= k < |fs| ==> InIntRange(fs[k])
    ensures ReadInts(Line(fs), |fs|) == Some(fs)
    decreases |fs|
  {
    if |fs| == 1 {
      ReadLineOne(fs);
    } else {
      ReadLine(fs[1..]);
      ReadLineStep(fs);
    }
  }

  lemma ReadLineOne(fs: seq<int>)
    requires |fs| == 1 && InIntRange(fs[0])
    ensures ReadInts(Line(fs), |fs|) == Some(fs)
  {
    ReadLastField(fs[0]);
    assert [fs[0]] == fs;
  }

  /** A field put before a line that reads back whole gives a line that reads back whole. */
  lemma ReadLineStep(fs: seq<int>)
    requires |fs| > 1 && InIntRange(fs[0])
    requires ReadInts(Line(fs[1..]), |fs[1..]|) == Some(fs[1..])
    ensures ReadInts(Line(fs), |fs|) == Some(fs)
  {
    var tail := fs[1..];
    assert [fs[0]] + tail == fs;
    LineCons(fs);
    ReadFieldThenSpace(fs[0], Line(tail), tail);
  }

  /** Parsing the line written for an update gives back that update, field by field. */
  lemma ParseFormat(u: Update)
    requires FitsInts(u)
    ensures Parse(Format(u)) == Some(u)
  {
    var line := Format(u);
    LineShape(Fields(u));
    assert '\0' !in line;
    assert CString(line) == line;
    ReadLine(Fields(u));
  }

  /**
   * A buffer whose first token after white space does not start with a sign
   * or a digit, or that holds only white space, does not parse: the first
   * extraction already fails.
   */
  lemma ParseRejectsText(buf: string)
    requires var t := SkipSpace(CString(buf)); t == [] || (!IsDigit(t[0]) && t[0] != '-' && t[0] != '+')
    ensures Parse(buf) == None
  {
    ConvertRejectsText(SkipSpace(CString(buf)));
  }

  lemma ConvertRejectsText(t: string)
    requires t == [] || (!IsDigit(t[0]) && t[0] != '-' && t[0] != '+')
    ensures Convert(t) == None
  {
    assert DigitRun(t) == 0;
  }

}
