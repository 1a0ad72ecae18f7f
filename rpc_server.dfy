/** How the `rpc-server` command turns its flags into the server's
    configuration (cmd/rpc_server.go): host, port and backend memory start at
    defaults and are overwritten by flags that pass their checks, the memory
    flag is converted from MB to bytes, a warning is due for a non-local host,
    and the endpoint is "host:port". */
module RpcServer {
  import opened Wrappers
  import opened GoInts
  import Rpc

  const DefaultHost: string := "127.0.0.1"
  const DefaultPort: int := 50052
  const BytesPerMB: int := 1024 * 1024

  /** The flag values as the command reads them; `None` is a lookup that
      returned an error. */
  datatype Flags = Flags(host: Option<string>, port: Option<int>, mem: Option<string>)

  /** The resolved configuration, with whether the non-localhost warning is
      printed. */
  datatype Config = Config(host: string, port: int, backendMem: int, warnNotLocal: bool, endpoint: string)

  /** "invalid memory size": the mem flag is not a base-10 int64. */
  datatype ConfigError = InvalidMemorySize(mem: string)

  // ---------------------------------------------------------------------
  // Decimal numbers
  // ---------------------------------------------------------------------

  predicate IsDigit(c: char) { '0' <= c <= '9' }

  predicate AllDigits(s: string) { forall i :: 0 <= i < |s| ==> IsDigit(s[i]) }

  /** The number a digit string spells, most significant digit first. */
  function DigitsValue(s: string): nat
    requires AllDigits(s)
  {
    if s == [] then 0
    else 10 * DigitsValue(s[..|s| - 1]) + (s[|s| - 1] as int - '0' as int)
  }

  /** One more digit on the right multiplies the value by ten and adds it. */
  lemma DigitsValueSnoc(s: string, c: char)
    requires AllDigits(s) && IsDigit(c)
    ensures AllDigits(s + [c])
    ensures DigitsValue(s + [c]) == 10 * DigitsValue(s) + (c as int - '0' as int)
  {
  }

  /** `strconv.ParseInt(s, 10, 64)`: an optional sign, then at least one
      decimal digit and nothing else, with the value in int64 range. Every
      other input is an error. */
  function ParseInt64(s: string): (r: Option<int>)
    ensures s == [] ==> r.None?
    ensures r.Some? ==> IsInt64(r.value)
    ensures r.Some? ==> IsDigit(s[|s| - 1])
    ensures r.Some? ==> forall i :: 0 < i < |s| ==> IsDigit(s[i])
    ensures r.Some? ==> IsDigit(s[0]) || s[0] == '+' || s[0] == '-'
    ensures r.Some? && r.value < 0 ==> s[0] == '-'
  {
    var neg := |s| > 0 && s[0] == '-';
    var digits := if |s| > 0 && (s[0] == '+' || s[0] == '-') then s[1..] else s;
    if digits == [] || !AllDigits(digits) then None
    else
      var u: int := DigitsValue(digits);
      var v := if neg then -u else u;
      if IsInt64(v) then Some(v) else None
  }

  function DigitChar(d: int): char
    requires 0 <= d < 10
  {
    ('0' as int + d) as char
  }

  /** The `%d` rendering of a non-negative number. */
  function Decimal(n: nat): (d: string)
    ensures d != [] && AllDigits(d)
    ensures n > 0 ==> d[0] != '0'
    ensures n < 10 <==> |d| == 1
  {
    if n < 10 then [DigitChar(n)] else Decimal(n / 10) + [DigitChar(n % 10)]
  }

  /** Rendering a number in decimal and reading it back gives the number. */
  lemma {:induction false} DecimalDigits(n: nat)
    ensures Decimal(n) != [] && AllDigits(Decimal(n))
    ensures DigitsValue(Decimal(n)) == n
  {
    if n >= 10 {
      DecimalDigits(n / 10);
      var s := Decimal(n);
      assert s[..|s| - 1] == Decimal(n / 10);
    }
  }

  /** Parsing the decimal rendering of an int64 gives it back. */
  lemma ParseDecimal(n: nat)
    requires n < Two63
    ensures ParseInt64(Decimal(n)) == Some(n)
  {
    DecimalDigits(n);
  }

  /** Any sign ("", "+" or "-") followed by a non-empty digit string parses to
      the value the digits spell, negated after "-", exactly when that value
      fits int64; leading zeros are allowed. */
  lemma ParseSigned(sign: string, digits: string)
    requires sign == "" || sign == "+" || sign == "-"
    requires digits != [] && AllDigits(digits)
    ensures var v: int := if sign == "-" then 0 - DigitsValue(digits) else DigitsValue(digits);
      ParseInt64(sign + digits) == if IsInt64(v) then Some(v) else None
  {
    if sign == "" {
      assert sign + digits == digits;
    } else {
      assert (sign + digits)[1..] == digits;
    }
  }

  /** Parsing "-" followed by the decimal rendering of n gives -n, for every
      n down to the least int64. */
  lemma ParseNegativeDecimal(n: nat)
    requires 0 < n <= Two63
    ensures ParseInt64("-" + Decimal(n)) == Some(0 - n as int)
  {
    DecimalDigits(n);
    ParseSigned("-", Decimal(n));
  }

  // ---------------------------------------------------------------------
  // Flag resolution
  // ---------------------------------------------------------------------

  /** The configuration part of `RunRPCServer`: each local starts at its
      default and is overwritten only by a flag that was read and passes its
      check; an unparsable mem flag stops everything with an error. */
  method ResolveConfig(flags: Flags) returns (r: Result<Config, ConfigError>)
    ensures r.Err? <==>
      flags.mem.Some? && flags.mem.value != "" && ParseInt64(flags.mem.value).None?
    ensures r.Err? ==> r.error == InvalidMemorySize(flags.mem.value)
    ensures r.Ok? ==>
      r.value.host ==
        (if flags.host.Some? && flags.host.value != "" then flags.host.value else DefaultHost)
    ensures r.Ok? ==>
      r.value.port ==
        (if flags.port.Some? && 0 < flags.port.value < 65536 then flags.port.value else DefaultPort)
    ensures r.Ok? ==>
      r.value.backendMem ==
        (if flags.mem.Some? && flags.mem.value != ""
         then Int64(ParseInt64(flags.mem.value).value * BytesPerMB)
         else 0)
    ensures r.Ok? ==> 0 < r.value.port < 65536
    ensures r.Ok? ==> (r.value.warnNotLocal <==> r.value.host != "127.0.0.1" && r.value.host != "localhost")
    ensures r.Ok? ==> r.value.endpoint == r.value.host + ":" + Decimal(r.value.port)
  {
    var host := DefaultHost;
    var port := DefaultPort;
    var backendMem := 0;

    if flags.host.Some? && flags.host.value != "" {
      host := flags.host.value;
    }

    if flags.port.Some? && flags.port.value > 0 && flags.port.value < 65536 {
      port := flags.port.value;
    }

    if flags.mem.Some? && flags.mem.value != "" {
      var memMB := ParseInt64(flags.mem.value);
      if memMB.None? {
        return Err(InvalidMemorySize(flags.mem.value));
      }
      // int64 arithmetic: each product wraps
      backendMem := Int64(Int64(memMB.value * 1024) * 1024);
      Int64Scale(memMB.value * 1024, 1024);
    }

    var warn := false;
    if host != "127.0.0.1" && host != "localhost" {
      warn := true;
    }

    var endpoint := host + ":" + Decimal(port);
    return Ok(Config(host, port, backendMem, warn, endpoint));
  }

  /** The endpoint splits at its last colon into the host and a port string
      that parses back to the port. */
  lemma EndpointSplitsBack(host: string, port: int)
    requires 0 < port < 65536
    ensures var e := host + ":" + Decimal(port);
      && e[..|host|] == host
      && e[|host|] == ':'
      && ':' !in e[|host| + 1..]
      && ParseInt64(e[|host| + 1..]) == Some(port)
  {
    var e := host + ":" + Decimal(port);
    assert e[|host| + 1..] == Decimal(port);
    DecimalDigits(port);
    ParseDecimal(port);
  }

  /** The default endpoint is 127.0.0.1:50052. */
  lemma DefaultEndpoint()
    ensures DefaultHost + ":" + Decimal(DefaultPort) == "127.0.0.1:50052"
  {
  }

  /** The resolved memory reaches `GetBackendMemory`: a byte count that
      comes out positive after the int64 wrap is reported as both free and
      total memory, while a zero or negative one (there is no sign check)
      falls back to the system figure. A negative MB value can wrap to a
      positive byte count and is then reported as such. */
  lemma MemFlagReachesBackend(memMB: int, sys: nat)
    ensures var b := Int64(memMB * BytesPerMB);
      b > 0 ==> Rpc.GetBackendMemory(b, sys) == (b, b)
    ensures var b := Int64(memMB * BytesPerMB);
      b <= 0 && sys < Two63 ==> Rpc.GetBackendMemory(b, sys).1 == sys
  {
  }

  /** The digits of the wrapping example spell the number. */
  lemma {:induction false} ExampleDigits()
    ensures AllDigits("8796093022209") && DigitsValue("8796093022209") == 8796093022209
  {
    var s := "8";
    assert DigitsValue(s) == 8;
    DigitsValueSnoc(s, '7');
    s := s + ['7'];
    DigitsValueSnoc(s, '9');
    s := s + ['9'];
    DigitsValueSnoc(s, '6');
    s := s + ['6'];
    DigitsValueSnoc(s, '0');
    s := s + ['0'];
    DigitsValueSnoc(s, '9');
    s := s + ['9'];
    DigitsValueSnoc(s, '3');
    s := s + ['3'];
    DigitsValueSnoc(s, '0');
    s := s + ['0'];
    DigitsValueSnoc(s, '2');
    s := s + ['2'];
    DigitsValueSnoc(s, '2');
    s := s + ['2'];
    DigitsValueSnoc(s, '2');
    s := s + ['2'];
    DigitsValueSnoc(s, '0');
    s := s + ['0'];
    DigitsValueSnoc(s, '9');
    s := s + ['9'];
    assert s == "8796093022209";
  }

  /** The mem flag "-8796093022209" parses, yet its byte count wraps to the
      positive 2^63 - 2^20, which is then reported as free and total memory. */
  lemma NegativeMemFlagWraps(sys: nat)
    ensures ParseInt64("-8796093022209") == Some(-8796093022209)
    ensures var b := Int64(-8796093022209 * BytesPerMB);
      b == Two63 - BytesPerMB && Rpc.GetBackendMemory(b, sys) == (b, b)
  {
    ExampleDigits();
    assert "-8796093022209"[1..] == "8796093022209";
  }
}
