/** The TCP mux endpoint: how `host:port` is parsed and printed. */
module Endpoint {
  import opened Protocol

  datatype TcpEndpoint = TcpEndpoint(host: string, port: u16)

  const LOCALHOST := "localhost"

  /** Position of the last colon. */
  function LastColon(s: string): (r: Option<nat>)
    ensures r.None? ==> ':' !in s
    ensures r.Some? ==> r.value < |s| && s[r.value] == ':' && ':' !in s[r.value + 1..]
  {
    if s == [] then None
    else if s[|s| - 1] == ':' then Some(|s| - 1)
    else
      var r := LastColon(s[..|s| - 1]);
      assert s == s[..|s| - 1] + [s[|s| - 1]];
      assert r.Some? ==> s[r.value + 1..] == s[..|s| - 1][r.value + 1..] + [s[|s| - 1]];
      r
  }

  predicate IsDigit(c: char) {
    '0' <= c <= '9'
  }

  predicate AllDigits(s: string) {
    forall i :: 0 <= i < |s| ==> IsDigit(s[i])
  }

  /** Decimal value of a string of digits. */
  function Value(s: string): nat
    requires AllDigits(s)
  {
    if s == [] then 0 else 10 * Value(s[..|s| - 1]) + (s[|s| - 1] as int - '0' as int)
  }

  /** The standard library's parser for unsigned integers: one optional '+', at least one
      digit, nothing else, and no overflow. */
  function ParseU16(s: string): Option<u16> {
    var digits := if s != [] && s[0] == '+' then s[1..] else s;
    if digits == [] || !AllDigits(digits) || Value(digits) > 0xFFFF then None else Some(Value(digits))
  }

  function ParseTcpEndpoint(addr: string): Option<TcpEndpoint> {
    match LastColon(addr)
    case Some(i) =>
      var host := if i == 0 then LOCALHOST else addr[..i];
      (match ParseU16(addr[i + 1..])
       case Some(port) => Some(TcpEndpoint(host, port))
       case None => None)
    case None =>
      match ParseU16(addr)
      case Some(port) => Some(TcpEndpoint(LOCALHOST, port))
      case None => None
  }

  function Decimal(n: nat): string {
    if n < 10 then [('0' as int + n) as char] else Decimal(n / 10) + [('0' as int + n % 10) as char]
  }

  function Print(e: TcpEndpoint): string {
    e.host + ":" + Decimal(e.port)
  }

  // ---------------------------------------------------------------- round trips

  lemma {:induction false} DecimalValue(n: nat)
    ensures Decimal(n) != [] && AllDigits(Decimal(n)) && Value(Decimal(n)) == n
    decreases n
  {
    if n >= 10 {
      DecimalValue(n / 10);
      var d := [('0' as int + n % 10) as char];
      assert (Decimal(n / 10) + d)[..|Decimal(n / 10) + d| - 1] == Decimal(n / 10);
    } else {
      assert Decimal(n)[..0] == [];
    }
  }

  /** Printing a port and reading it back gives the port. */
  lemma PortRoundTrip(port: u16)
    ensures ParseU16(Decimal(port)) == Some(port) && ':' !in Decimal(port)
  {
    DecimalValue(port);
    assert IsDigit(Decimal(port)[0]);
  }

  lemma {:induction false} LastColonIs(host: string, tail: string)
    requires ':' !in tail
    ensures LastColon(host + ":" + tail) == Some(|host|)
    decreases |tail|
  {
    var s := host + ":" + tail;
    if tail == [] {
      assert s[|s| - 1] == ':';
    } else {
      assert s[|s| - 1] == tail[|tail| - 1];
      assert s[..|s| - 1] == host + ":" + tail[..|tail| - 1];
      LastColonIs(host, tail[..|tail| - 1]);
    }
  }

  /** A text with a colon splits at the last one, and is accepted exactly when what follows
      is a port; an empty host means localhost. */
  lemma SplitsAtLastColon(host: string, tail: string)
    requires ':' !in tail
    ensures ParseTcpEndpoint(host + ":" + tail) ==
            match ParseU16(tail)
            case Some(port) => Some(TcpEndpoint(if host == "" then "localhost" else host, port))
            case None => None
  {
    LastColonIs(host, tail);
    var s := host + ":" + tail;
    assert s[..|host|] == host && s[|host| + 1..] == tail;
  }

  /** A text without a colon is accepted exactly when it is a port, on localhost. */
  lemma WithoutColon(s: string, e: TcpEndpoint)
    requires ':' !in s
    ensures ParseTcpEndpoint(s) == Some(e) <==> e.host == "localhost" && ParseU16(s) == Some(e.port)
  {
  }

  lemma {:induction false} DecimalStart(n: nat)
    ensures Decimal(n) != [] && (Decimal(n)[0] == '0' ==> n == 0)
    decreases n
  {
    if n >= 10 {
      DecimalStart(n / 10);
      assert Decimal(n)[0] == Decimal(n / 10)[0];
    }
  }

  /** What is printed is the host, a colon and the port's digits without sign or leading zero. */
  lemma PrintShape(e: TcpEndpoint)
    ensures var tail := Decimal(e.port);
            && Print(e) == e.host + ":" + tail && tail != []
            && AllDigits(tail) && Value(tail) == e.port && (tail[0] == '0' ==> e.port == 0 && tail == "0")
  {
    DecimalValue(e.port);
    DecimalStart(e.port);
  }

  /** Parsing what was printed gives it back exactly when the host is not empty, whatever
      else the host contains, colons included. */
  lemma RoundTripIff(e: TcpEndpoint)
    ensures ParseTcpEndpoint(Print(e)) == Some(e) <==> e.host != ""
  {
    PortRoundTrip(e.port);
    SplitsAtLastColon(e.host, Decimal(e.port));
  }

  /** Every accepted text has a normal form: printing the endpoint it denotes and parsing
      again changes nothing, despite leading zeros, '+' and defaulted hosts. */
  lemma ParseIsStable(s: string)
    requires ParseTcpEndpoint(s).Some?
    ensures ParseTcpEndpoint(Print(ParseTcpEndpoint(s).value)) == ParseTcpEndpoint(s)
  {
    RoundTripIff(ParseTcpEndpoint(s).value);
  }

  lemma {:induction false} ZerosKeepValue(zeros: string, digits: string)
    requires forall i :: 0 <= i < |zeros| ==> zeros[i] == '0'
    requires AllDigits(digits)
    ensures AllDigits(zeros + digits) && Value(zeros + digits) == Value(digits)
    decreases |zeros| + |digits|
  {
    var s := zeros + digits;
    if digits != [] {
      ZerosKeepValue(zeros, digits[..|digits| - 1]);
      assert s[..|s| - 1] == zeros + digits[..|digits| - 1];
    } else if zeros != [] {
      ZerosKeepValue(zeros[..|zeros| - 1], []);
      assert s[..|s| - 1] == zeros[..|zeros| - 1] + [];
    }
  }

  lemma PlusIsOptional(digits: string)
    requires digits != [] && IsDigit(digits[0])
    ensures ParseU16("+" + digits) == ParseU16(digits)
  {
    assert ("+" + digits)[0] == '+' && ("+" + digits)[1..] == digits;
  }

  function Zeros(n: nat): string {
    seq(n, _ => '0')
  }

  /** A port written with n leading zeros, after a '+' or not. */
  function Spelling(plus: bool, n: nat, port: u16): string {
    (if plus then "+" else "") + (Zeros(n) + Decimal(port))
  }

  lemma SpellingParses(plus: bool, n: nat, port: u16)
    ensures ParseU16(Spelling(plus, n, port)) == Some(port)
  {
    DecimalValue(port);
    ZerosKeepValue(Zeros(n), Decimal(port));
    var digits := Zeros(n) + Decimal(port);
    assert digits != [] && IsDigit(digits[0]);
    if plus {
      PlusIsOptional(digits);
    } else {
      assert Spelling(plus, n, port) == digits;
    }
  }

  /** Where the leading zeros of a string of digits end. */
  lemma {:induction false} DigitsAreZerosThenDecimal(s: string) returns (n: nat)
    requires s != [] && AllDigits(s)
    ensures n <= |s| && (forall i :: 0 <= i < n ==> s[i] == '0') && s[n..] == Decimal(Value(s))
    decreases |s|
  {
    var init, last := s[..|s| - 1], s[|s| - 1];
    assert s == init + [last];
    if init == [] {
      assert s[0..] == s && Value(s) < 10 && Decimal(Value(s)) == [last];
      return 0;
    }
    n := DigitsAreZerosThenDecimal(init);
    if Value(init) == 0 {
      assert init[n..] == "0" && n == |init| - 1;
      n := n + 1;
      assert s[n..] == [last];
    } else {
      assert Value(s) / 10 == Value(init) && Value(s) % 10 == last as int - '0' as int;
      assert s[n..] == init[n..] + [last];
    }
  }

  /** The accepted spellings of a port: an optional '+', any number of zeros, its digits;
      and no others. */
  lemma PortSpellings(s: string, port: u16)
    ensures ParseU16(s) == Some(port) <==> exists plus, n :: s == Spelling(plus, n, port)
  {
    if ParseU16(s) == Some(port) {
      var plus := s[0] == '+';
      var digits := if plus then s[1..] else s;
      var n := DigitsAreZerosThenDecimal(digits);
      assert digits == Zeros(n) + Decimal(port);
      assert s == Spelling(plus, n, port);
    }
    if exists plus, n :: s == Spelling(plus, n, port) {
      var plus, n :| s == Spelling(plus, n, port);
      SpellingParses(plus, n, port);
    }
  }
}
