/** The stand-alone backend: the API key is looked up in the environment on
    every request, and HOST and PORT are read from the environment at
    startup. An environment variable is `Some(value)` when it is set to
    valid Unicode and `None` otherwise; the source treats both failure kinds
    of `env::var` alike. */
module EnvBackend {
  import opened Wrappers
  import opened Whitespace
  import opened Gemini
  import opened Gateway

  const KeyMissingMessage: string := "API key not configured"

  /** `paraphrase`: the key lookup comes first; with a key, the shared
      handler runs. */
  function Paraphrase(envKey: Option<string>, text: string, upstream: Outbound -> Exchange): (h: Handled)
    ensures envKey.None? ==> h == Handled(None, HttpResponse(500, ErrorBody(KeyMissingMessage)))
    ensures envKey.Some? && IsBlank(text) ==> h == Handled(None, HttpResponse(400, ErrorBody(EmptyTextMessage)))
    ensures envKey.Some? && !IsBlank(text) ==>
              && h.sent == Some(Outbound(RequestUrl(envKey.value), BuildRequest(text)))
              && h.response == Respond(CallGemini(upstream(h.sent.value)))
    ensures h.response.status in {200, 400, 500}
  {
    match envKey
    case None => Handled(None, HttpResponse(500, ErrorBody(KeyMissingMessage)))
    case Some(key) => Serve(key, text, upstream)
  }

  /** The key check precedes validation: without a key even blank text is
      answered 500 "API key not configured"; with any key, blank text is
      answered 400. In neither case is anything sent. */
  lemma {:induction false} MissingKeyBeforeValidation(key: string, text: string, upstream: Outbound -> Exchange)
    requires AllWs(text)
    ensures Paraphrase(None, text, upstream) == Handled(None, HttpResponse(500, ErrorBody("API key not configured")))
    ensures Paraphrase(Some(key), text, upstream) == Handled(None, HttpResponse(400, ErrorBody("Text cannot be empty")))
  {
    BlankIffAllWhitespace(text);
  }

  // ---- Startup configuration ----

  type Port = n: nat | n < 0x1_0000

  datatype ServerConfig = ServerConfig(host: string, port: Port)

  /** The kinds of `ParseIntError` that parsing a `u16` can produce. */
  datatype IntErrorKind = Empty | InvalidDigit | PosOverflow

  const DefaultHost: string := "127.0.0.1"
  const DefaultPort: string := "8080"
  const BadPortMessage: string := "PORT must be a number"

  predicate IsDigit(c: char) {
    '0' <= c <= '9'
  }

  predicate AllDigits(s: string) {
    forall i :: 0 <= i < |s| ==> IsDigit(s[i])
  }

  function DigitOf(c: char): nat
    requires IsDigit(c)
  {
    c as int - '0' as int
  }

  function Pow10(n: nat): (p: nat)
    ensures p >= 1
  {
    if n == 0 then 1 else 10 * Pow10(n - 1)
  }

  /** The value of a string of decimal digits, most significant first: the
      reference meaning of a numeral. */
  function DigitsValue(s: string): nat
    requires AllDigits(s)
  {
    if s == [] then 0
    else DigitsValue(s[..|s| - 1]) * 10 + DigitOf(s[|s| - 1])
  }

  /** The digits `parse::<u16>` reads: a leading `+` is skipped. */
  function Unsigned(s: string): (d: string)
    ensures |d| <= |s|
  {
    if |s| > 0 && s[0] == '+' then s[1..] else s
  }

  /** What `parse::<u16>` accepts: an optional `+`, then at least one ASCII
      digit, with a value below 65536. */
  predicate IsU16Numeral(s: string) {
    var d := Unsigned(s);
    d != [] && AllDigits(d) && DigitsValue(d) < 0x1_0000
  }

  /** The digit loop of `u16::from_str`, left to right: for each byte the
      digit is checked first, then the multiplication and addition for
      overflow; the first failure decides the error kind. */
  function Accumulate(d: string, acc: Port): (r: Result<Port, IntErrorKind>)
    ensures r.Success? ==> AllDigits(d) && acc <= r.value
    decreases |d|
  {
    if d == [] then Success(acc)
    else if !IsDigit(d[0]) then Failure(InvalidDigit)
    else
      var v := acc * 10 + DigitOf(d[0]);
      if v < 0x1_0000 then Accumulate(d[1..], v) else Failure(PosOverflow)
  }

  /** `str::parse::<u16>`: the empty string is `Empty`, a lone sign is
      `InvalidDigit`, otherwise the digit loop runs on what follows an
      optional `+`. */
  function ParseU16(s: string): (r: Result<Port, IntErrorKind>)
    ensures s == [] ==> r == Failure(Empty)
    ensures r.Success? ==> Unsigned(s) != [] && AllDigits(Unsigned(s))
  {
    if s == [] then Failure(Empty)
    else if |s| == 1 && (s[0] == '+' || s[0] == '-') then Failure(InvalidDigit)
    else Accumulate(Unsigned(s), 0)
  }

  /** Reading a digit in front of a numeral adds its value times the
      numeral's weight. */
  lemma {:induction false} DigitsValueFront(c: char, r: string)
    requires IsDigit(c) && AllDigits(r)
    ensures AllDigits([c] + r)
    ensures DigitsValue([c] + r) == DigitOf(c) * Pow10(|r|) + DigitsValue(r)
  {
    var s := [c] + r;
    if r == [] {
      assert s[..|s| - 1] == [];
    } else {
      var init, e := r[..|r| - 1], DigitOf(r[|r| - 1]);
      DigitsValueFront(c, init);
      assert s[..|s| - 1] == [c] + init;
      assert s[|s| - 1] == r[|r| - 1];
      var a, p, v := DigitOf(c), Pow10(|init|), DigitsValue(init);
      assert DigitsValue(s) == (a * p + v) * 10 + e;
      assert DigitsValue(r) == v * 10 + e;
      assert Pow10(|r|) == p * 10;
      ShiftDigit(a, p, v, e);
    }
  }

  /** Arithmetic step of `DigitsValueFront`. */
  lemma ShiftDigit(a: int, p: int, v: int, e: int)
    ensures (a * p + v) * 10 + e == a * (p * 10) + (v * 10 + e)
  {
  }

  /** Arithmetic step of `AccumulateInvalid`: one more digit keeps the
      bound on the accumulator. */
  lemma StepBound(acc: nat, dg: nat, p: nat)
    requires dg <= 9 && p >= 1
    ensures (acc * 10 + dg + 1) * p <= (acc + 1) * (10 * p)
    ensures acc * 10 + dg + 1 <= (acc * 10 + dg + 1) * p
  {
    var a := acc * 10 + dg + 1;
    assert a * p == a * (p - 1) + a;
    assert (acc + 1) * (10 * p) == a * p + (9 - dg) * p;
  }

  /** On a digit string the loop computes the reference value, and fails
      with `PosOverflow` exactly when that value does not fit. */
  lemma {:induction false} AccumulateValue(d: string, acc: Port)
    requires AllDigits(d)
    ensures var v := acc * Pow10(|d|) + DigitsValue(d);
      Accumulate(d, acc) == if v < 0x1_0000 then Success(v) else Failure(PosOverflow)
  {
    if d != [] {
      var c, r := d[0], d[1..];
      assert d == [c] + r;
      DigitsValueFront(c, r);
      var w := acc * 10 + DigitOf(c);
      assert acc * Pow10(|d|) + DigitsValue(d) == w * Pow10(|r|) + DigitsValue(r);
      if w < 0x1_0000 {
        AccumulateValue(r, w);
      } else {
        assert w * Pow10(|r|) >= w;
      }
    }
  }

  /** A non-digit within the first four characters is met before any
      overflow is possible, so it is reported as `InvalidDigit`. */
  lemma {:induction false} AccumulateInvalid(d: string, acc: Port)
    requires !AllDigits(d)
    requires (acc + 1) * Pow10(|d|) <= 0x1_0000
    ensures Accumulate(d, acc) == Failure(InvalidDigit)
  {
    if IsDigit(d[0]) {
      var r := d[1..];
      var w := acc * 10 + DigitOf(d[0]);
      var i :| 0 <= i < |d| && !IsDigit(d[i]);
      assert r[i - 1] == d[i];
      assert Pow10(|d|) == 10 * Pow10(|r|);
      StepBound(acc, DigitOf(d[0]), Pow10(|r|));
      AccumulateInvalid(r, w);
    }
  }

  /** `parse::<u16>` succeeds exactly on the numerals it should, with their
      value, and a digit string that is too large is `PosOverflow`. */
  lemma {:induction false} ParseU16Spec(s: string)
    ensures ParseU16(s).Success? <==> IsU16Numeral(s)
    ensures ParseU16(s).Success? ==> ParseU16(s).value == DigitsValue(Unsigned(s))
    ensures Unsigned(s) != [] && AllDigits(Unsigned(s)) && DigitsValue(Unsigned(s)) >= 0x1_0000
      ==> ParseU16(s) == Failure(PosOverflow)
  {
    var d := Unsigned(s);
    if s != [] && !(|s| == 1 && (s[0] == '+' || s[0] == '-')) && AllDigits(d) {
      AccumulateValue(d, 0);
    }
  }

  /** A PORT with a character other than an ASCII digit after its optional
      `+` is rejected; when the part after the optional `+` is at most four
      characters long, the kind is `InvalidDigit`. */
  lemma {:induction false} ParseU16RejectsNonDigit(s: string)
    requires !AllDigits(Unsigned(s))
    ensures ParseU16(s).Failure?
    ensures |Unsigned(s)| <= 4 ==> ParseU16(s) == Failure(InvalidDigit)
  {
    var d := Unsigned(s);
    if |d| <= 4 && !(|s| == 1 && (s[0] == '+' || s[0] == '-')) {
      assert Pow10(|d|) <= 10000 by {
        if |d| == 4 { assert Pow10(4) == 10000; }
        else if |d| == 3 { assert Pow10(3) == 1000; }
        else if |d| == 2 { assert Pow10(2) == 100; }
        else { assert Pow10(|d|) <= 10; }
      }
      AccumulateInvalid(d, 0);
    }
  }

  /** A digit string whose value is 65536 or more is `PosOverflow`. */
  lemma {:induction false} ParseU16RejectsOverflow(s: string)
    requires s != [] && AllDigits(s) && DigitsValue(s) >= 0x1_0000
    ensures ParseU16(s) == Failure(PosOverflow)
  {
    ParseU16Spec(s);
  }

  /** The decimal numeral of `n` without leading zeros: the reference
      against which `ParseU16` is checked. */
  function Decimal(n: nat): (s: string)
    ensures s != [] && AllDigits(s) && DigitsValue(s) == n
    ensures n >= 10 ==> s[0] != '0'
  {
    var last := [('0' as int + n % 10) as char];
    if n < 10 then last
    else
      var init := Decimal(n / 10);
      assert (init + last)[..|init + last| - 1] == init;
      init + last
  }

  /** Every port number is parsed back from its decimal numeral, with or
      without a leading `+`. */
  lemma {:induction false} ParseU16RoundTrip(n: Port)
    ensures ParseU16(Decimal(n)) == Success(n)
    ensures ParseU16("+" + Decimal(n)) == Success(n)
  {
    ParseU16Spec(Decimal(n));
    assert Unsigned("+" + Decimal(n)) == Decimal(n);
    ParseU16Spec("+" + Decimal(n));
  }

  /** A leading zero does not change the value of a numeral. */
  lemma {:induction false} LeadingZeroValue(s: string)
    requires AllDigits(s)
    ensures AllDigits("0" + s) && DigitsValue("0" + s) == DigitsValue(s)
  {
    if s != [] {
      var init := s[..|s| - 1];
      assert ("0" + s)[..|"0" + s| - 1] == "0" + init;
      LeadingZeroValue(init);
    }
  }

  /** `parse::<u16>` treats a numeral with a leading zero as the numeral
      itself: the same value, or the same overflow. */
  lemma {:induction false} LeadingZeroIgnored(s: string)
    requires s != [] && AllDigits(s)
    ensures ParseU16("0" + s) == ParseU16(s)
  {
    LeadingZeroValue(s);
    assert Unsigned("0" + s) == "0" + s;
    assert Unsigned(s) == s;
    ParseU16Spec("0" + s);
    ParseU16Spec(s);
  }

  /** The panic message of `.expect("PORT must be a number")` on a
      `ParseIntError` of the given kind. */
  function PanicMessage(k: IntErrorKind): (m: string)
    ensures |m| > |BadPortMessage| && m[..|BadPortMessage|] == BadPortMessage
  {
    var kind := match k
      case Empty => "Empty"
      case InvalidDigit => "InvalidDigit"
      case PosOverflow => "PosOverflow";
    BadPortMessage + ": ParseIntError { kind: " + kind + " }"
  }

  /** The panic text tells the three error kinds apart. */
  lemma PanicMessageDeterminesKind(k1: IntErrorKind, k2: IntErrorKind)
    requires PanicMessage(k1) == PanicMessage(k2)
    ensures k1 == k2
  {
    var i := |BadPortMessage + ": ParseIntError { kind: "|;
    assert PanicMessage(k1)[i] == PanicMessage(k2)[i];
  }

  /** What `main` does before starting the server: HOST falls back to
      127.0.0.1 and PORT to 8080; a PORT that is not a 16-bit numeral stops
      the process with the `expect` panic for its error kind. */
  function LoadConfig(hostVar: Option<string>, portVar: Option<string>): (r: Result<ServerConfig, string>)
    ensures r.Success? <==> IsU16Numeral(portVar.GetOr(DefaultPort))
    ensures r.Success? ==>
              r.value == ServerConfig(hostVar.GetOr(DefaultHost), DigitsValue(Unsigned(portVar.GetOr(DefaultPort))))
    ensures r.Failure? ==>
              && ParseU16(portVar.GetOr(DefaultPort)).Failure?
              && r.error == PanicMessage(ParseU16(portVar.GetOr(DefaultPort)).error)
  {
    var host := hostVar.GetOr(DefaultHost);
    var port := portVar.GetOr(DefaultPort);
    ParseU16Spec(port);
    match ParseU16(port)
    case Success(p) => Success(ServerConfig(host, p))
    case Failure(k) => Failure(PanicMessage(k))
  }

  /** With neither variable set the server binds 127.0.0.1:8080, and a PORT
      written with a `+` or a leading zero is the same port. */
  lemma {:induction false} ConfigDefaults(hostVar: Option<string>)
    ensures LoadConfig(None, None) == Success(ServerConfig("127.0.0.1", 8080))
    ensures LoadConfig(hostVar, Some("+8080")) == Success(ServerConfig(hostVar.GetOr(DefaultHost), 8080))
    ensures LoadConfig(hostVar, Some("08080")) == Success(ServerConfig(hostVar.GetOr(DefaultHost), 8080))
  {
    assert "8080"[..3] == "808" && "808"[..2] == "80" && "80"[..1] == "8";
    assert AllDigits(DefaultPort) && DigitsValue(DefaultPort) == 8080;
    assert Unsigned("+8080") == DefaultPort;
    LeadingZeroValue(DefaultPort);
    assert "0" + DefaultPort == "08080";
    assert Unsigned("08080") == "08080";
  }

  /** PORT values that stop the process, each with its panic message. */
  lemma {:induction false} BadPortsRejected(hostVar: Option<string>)
    ensures LoadConfig(hostVar, Some("")) == Failure(PanicMessage(Empty))
    ensures LoadConfig(hostVar, Some("+")) == Failure(PanicMessage(InvalidDigit))
    ensures LoadConfig(hostVar, Some("-1")) == Failure(PanicMessage(InvalidDigit))
    ensures LoadConfig(hostVar, Some("80a")) == Failure(PanicMessage(InvalidDigit))
    ensures LoadConfig(hostVar, Some("65536")) == Failure(PanicMessage(PosOverflow))
  {
    assert !IsDigit("-1"[0]);
    ParseU16RejectsNonDigit("-1");
    assert !IsDigit("80a"[2]);
    ParseU16RejectsNonDigit("80a");
    assert "65536"[..4] == "6553" && "6553"[..3] == "655" && "655"[..2] == "65" && "65"[..1] == "6";
    assert AllDigits("65536") && DigitsValue("65536") == 65536;
    ParseU16RejectsOverflow("65536");
  }
}
