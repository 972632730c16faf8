// The console front end's argument parser: exactly four arguments, an
// operation word matched ignoring case, then three 32-bit integers.

module CommandLine {
  import opened Wrappers

  datatype OperationType = Buy | Book

  datatype CommandLineArguments = CommandLineArguments(command: OperationType, sessionId: int, seatNumber: int, clientId: int)

  /** The parser's only failure, InvalidOperationException. */
  datatype ParseError = InvalidOperation

  const MinInt32: int := -0x8000_0000
  const MaxInt32: int := 0x7FFF_FFFF

  predicate IsInt32(n: int) {
    MinInt32 <= n <= MaxInt32
  }

  // ---------------------------------------------------------------------
  // Comparison ignoring case

  /** The upper-case form of an ASCII letter; other characters are kept. */
  function UpperAscii(c: char): char {
    if 'a' <= c <= 'z' then (c as int - 32) as char else c
  }

  /** Two words are equal ignoring case: same length, and letter by letter the
      same up to case. */
  predicate EqualsIgnoreCase(a: string, b: string) {
    |a| == |b| && forall i :: 0 <= i < |a| ==> UpperAscii(a[i]) == UpperAscii(b[i])
  }

  /** The operation word: "buy" or "book" in any case. */
  function OperationOf(word: string): (r: Option<OperationType>)
    ensures r == Some(Buy) <==> EqualsIgnoreCase(word, "buy")
    ensures r == Some(Book) <==> EqualsIgnoreCase(word, "book")
    ensures r.None? <==> !EqualsIgnoreCase(word, "buy") && !EqualsIgnoreCase(word, "book")
  {
    if EqualsIgnoreCase(word, "buy") then Some(Buy)
    else if EqualsIgnoreCase(word, "book") then Some(Book)
    else None
  }

  /** The word each operation is written with. */
  function OperationName(op: OperationType): string {
    if op.Buy? then "buy" else "book"
  }

  /** The word with every ASCII letter in upper case. */
  function UpperWord(w: string): (u: string)
    ensures |u| == |w|
  {
    seq(|w|, i requires 0 <= i < |w| => UpperAscii(w[i]))
  }

  /** Words equal ignoring case read as the same operation. */
  lemma SameWordSameOperation(a: string, b: string)
    requires EqualsIgnoreCase(a, b)
    ensures OperationOf(a) == OperationOf(b)
  {
  }

  /** The operation does not depend on the case of the word: every word reads
      as the same operation as its upper-case form. */
  lemma OperationIgnoresCase(w: string)
    ensures OperationOf(UpperWord(w)) == OperationOf(w)
  {
  }

  // ---------------------------------------------------------------------
  // int.TryParse with the integer number style: optional white space around
  // an optional sign and one or more decimal digits, in the 32-bit range.

  predicate IsWhite(c: char) {
    c == ' ' || '\t' <= c <= '\r'
  }

  predicate IsDigit(c: char) {
    '0' <= c <= '9'
  }

  predicate AllDigits(s: string) {
    forall i :: 0 <= i < |s| ==> IsDigit(s[i])
  }

  function TrimStart(s: string): (r: string)
    ensures r != [] ==> !IsWhite(r[0])
    decreases |s|
  {
    if s != [] && IsWhite(s[0]) then TrimStart(s[1..]) else s
  }

  function TrimEnd(s: string): (r: string)
    ensures r != [] ==> !IsWhite(r[|r| - 1])
    decreases |s|
  {
    if s != [] && IsWhite(s[|s| - 1]) then TrimEnd(s[..|s| - 1]) else s
  }

  function Trim(s: string): string {
    TrimEnd(TrimStart(s))
  }

  function DigitValue(c: char): nat
    requires IsDigit(c)
  {
    c as int - '0' as int
  }

  /** The value of a string of decimal digits, most significant first. */
  function DigitsValue(s: string): nat
    requires AllDigits(s)
    decreases |s|
  {
    if s == [] then 0 else DigitsValue(s[..|s| - 1]) * 10 + DigitValue(s[|s| - 1])
  }

  /** A trimmed number: an optional sign, then one or more digits whose
      signed value fits in 32 bits. */
  function ParseTrimmed(t: string): (r: Option<int>)
    ensures r.Some? ==> IsInt32(r.value)
  {
    var negative := t != [] && t[0] == '-';
    var digits := if t != [] && (t[0] == '-' || t[0] == '+') then t[1..] else t;
    if digits == [] || !AllDigits(digits) then None
    else
      var value: int := if negative then -(DigitsValue(digits) as int) else DigitsValue(digits);
      if IsInt32(value) then Some(value) else None
  }

  /** int.TryParse into a 32-bit integer. */
  function ParseInt32(s: string): (r: Option<int>)
    ensures r.Some? ==> IsInt32(r.value)
  {
    ParseTrimmed(Trim(s))
  }

  /** The decimal digits of a natural number, without leading zeros. */
  function Digits(n: nat): (s: string)
    ensures s != [] && AllDigits(s)
    decreases n
  {
    if n < 10 then [('0' as int + n) as char] else Digits(n / 10) + [('0' as int + n % 10) as char]
  }

  /** A 32-bit integer written in decimal, with a minus sign when negative. */
  function Format(n: int): (s: string)
    ensures s != [] && !IsWhite(s[0]) && !IsWhite(s[|s| - 1])
  {
    if n < 0 then "-" + Digits(-n) else Digits(n)
  }

  lemma {:induction false} DigitsValueOfDigits(n: nat)
    ensures DigitsValue(Digits(n)) == n
    decreases n
  {
    if n >= 10 {
      DigitsValueOfDigits(n / 10);
      var s := Digits(n);
      assert s[..|s| - 1] == Digits(n / 10);
    }
  }

  lemma TrimKeepsTrimmed(s: string)
    requires s != [] && !IsWhite(s[0]) && !IsWhite(s[|s| - 1])
    ensures Trim(s) == s
  {
  }

  /** Parsing a formatted 32-bit integer gives it back. */
  lemma ParseFormat(n: int)
    requires IsInt32(n)
    ensures ParseInt32(Format(n)) == Some(n)
  {
    var s := Format(n);
    TrimKeepsTrimmed(s);
    if n < 0 {
      DigitsValueOfDigits(-n);
      assert s[0] == '-' && s[1..] == Digits(-n);
    } else {
      DigitsValueOfDigits(n);
      assert s == Digits(n) && IsDigit(s[0]);
    }
  }

  /** The trimmed text t is a sign of length k (none, '+' or '-') followed
      by one or more decimal digits. */
  predicate SignedDigits(t: string, k: nat) {
    k <= 1 && k < |t| && (k == 1 ==> t[0] == '+' || t[0] == '-') && AllDigits(t[k..])
  }

  /** The value such a text denotes. */
  function SignedValue(t: string, k: nat): int
    requires SignedDigits(t, k)
  {
    if k == 1 && t[0] == '-' then -(DigitsValue(t[k..]) as int) else DigitsValue(t[k..])
  }

  /** int.TryParse accepts s exactly when, trimmed of white space, it is an
      optional sign and one or more digits whose value fits in 32 bits, and
      then yields that value; it refuses every other string. */
  lemma ParseInt32Accepts(s: string, n: int)
    ensures ParseInt32(s) == Some(n) <==>
              exists k :: SignedDigits(Trim(s), k) && SignedValue(Trim(s), k) == n && IsInt32(n)
    ensures ParseInt32(s).None? <==>
              forall k :: SignedDigits(Trim(s), k) ==> !IsInt32(SignedValue(Trim(s), k))
  {
    var t := Trim(s);
    if t != [] && (t[0] == '+' || t[0] == '-') {
      assert !SignedDigits(t, 0) by { assert !IsDigit(t[0]); }
      if SignedDigits(t, 1) {
        assert ParseTrimmed(t) == (if IsInt32(SignedValue(t, 1)) then Some(SignedValue(t, 1)) else None);
      }
    } else {
      assert !SignedDigits(t, 1);
      if SignedDigits(t, 0) {
        assert t[0..] == t;
        assert ParseTrimmed(t) == (if IsInt32(SignedValue(t, 0)) then Some(SignedValue(t, 0)) else None);
      } else {
        assert t == [] || !AllDigits(t) by { assert t[0..] == t; }
      }
    }
  }

  // ---------------------------------------------------------------------
  // The parser

  /** CommandLineArguments.FromCommandLineArguments. */
  function FromCommandLineArguments(arguments: seq<string>): (r: Result<CommandLineArguments, ParseError>)
    ensures r.Ok? <==> |arguments| == 4 && OperationOf(arguments[0]).Some?
                       && ParseInt32(arguments[1]).Some? && ParseInt32(arguments[2]).Some?
                       && ParseInt32(arguments[3]).Some?
    ensures r.Ok? ==> r.value == CommandLineArguments(OperationOf(arguments[0]).value,
                                   ParseInt32(arguments[1]).value, ParseInt32(arguments[2]).value,
                                   ParseInt32(arguments[3]).value)
  {
    if |arguments| != 4 then Err(InvalidOperation)
    else
      var (operation, session, seat, client) := (arguments[0], arguments[1], arguments[2], arguments[3]);
      match OperationOf(operation)
      case None => Err(InvalidOperation)
      case Some(command) =>
        match ParseInt32(session)
        case None => Err(InvalidOperation)
        case Some(sessionId) =>
          match ParseInt32(seat)
          case None => Err(InvalidOperation)
          case Some(seatNumber) =>
            match ParseInt32(client)
            case None => Err(InvalidOperation)
            case Some(clientId) => Ok(CommandLineArguments(command, sessionId, seatNumber, clientId))
  }

  /** Writing a command out as four arguments and parsing them gives the
      command back. */
  lemma ParseWrittenArguments(command: OperationType, sessionId: int, seatNumber: int, clientId: int)
    requires IsInt32(sessionId) && IsInt32(seatNumber) && IsInt32(clientId)
    ensures FromCommandLineArguments([OperationName(command), Format(sessionId), Format(seatNumber), Format(clientId)])
            == Ok(CommandLineArguments(command, sessionId, seatNumber, clientId))
  {
    ParseFormat(sessionId);
    ParseFormat(seatNumber);
    ParseFormat(clientId);
    assert EqualsIgnoreCase("buy", "buy") && EqualsIgnoreCase("book", "book");
    assert !EqualsIgnoreCase("book", "buy");
  }
}
