/** How the HMSClient constructor picks the metastore endpoint when it builds
    its own transport: host from the argument, else HMS_HOST, else
    "localhost"; a "host:port" host overrides the port; the port from the
    argument, else HMS_PORT, else 9083. The environment is a parameter. */
module EndpointResolution {
  import opened Wrappers
  import opened Text

  const DEFAULT_HOST := "localhost"
  const DEFAULT_PORT := 9083
  const HOST_VARIABLE := "HMS_HOST"
  const PORT_VARIABLE := "HMS_PORT"

  datatype Endpoint = Endpoint(host: string, port: int)

  /** The `ValueError` that `int()` raises on text that is not a number. */
  datatype EndpointError = InvalidPort(text: string)

  /** The Python variable `port` holds nothing, a number (an explicit
      argument, or the number after a colon in the host) or text (an explicit
      argument, or the value read from HMS_PORT). */
  datatype PortValue = NoPort | IntPort(n: int) | TextPort(text: string)

  /** Python truthiness of the `port` variable: None, 0 and "" are false. */
  predicate PortSet(p: PortValue) {
    match p
    case NoPort => false
    case IntPort(n) => n != 0
    case TextPort(t) => t != ""
  }

  /** Python truthiness of optional text (the `host` variable, or a value
      read from the environment): None and "" are false. */
  predicate TextSet(h: Option<string>) {
    h.Some? && h.value != ""
  }

  /** `environ.get(key)`: the value when the variable is set, else nothing. */
  function EnvGet(env: map<string, string>, key: string): (v: Option<string>)
    ensures v.Some? <==> key in env
    ensures v.Some? ==> v.value == env[key]
  {
    if key in env then Some(env[key]) else None
  }

  /** The host text chosen before any colon is looked at: the first of the
      argument, HMS_HOST and "localhost" that is set and non-empty. */
  function ChosenHost(hostArg: Option<string>, env: map<string, string>): (h: string)
    ensures h != ""
    ensures TextSet(hostArg) ==> h == hostArg.value
    ensures !TextSet(hostArg) && TextSet(EnvGet(env, HOST_VARIABLE)) ==> h == env[HOST_VARIABLE]
    ensures !TextSet(hostArg) && !TextSet(EnvGet(env, HOST_VARIABLE)) ==> h == DEFAULT_HOST
  {
    if TextSet(hostArg) then hostArg.value
    else if TextSet(EnvGet(env, HOST_VARIABLE)) then env[HOST_VARIABLE]
    else DEFAULT_HOST
  }

  /** The port value left once the fallbacks have run: the given one when set,
      else HMS_PORT when set, else the default. */
  function PortChoice(p: PortValue, env: map<string, string>): (q: PortValue)
    ensures PortSet(q)
    ensures PortSet(p) ==> q == p
    ensures !PortSet(p) && TextSet(EnvGet(env, PORT_VARIABLE)) ==> q == TextPort(env[PORT_VARIABLE])
    ensures !PortSet(p) && !TextSet(EnvGet(env, PORT_VARIABLE)) ==> q == IntPort(DEFAULT_PORT)
  {
    if PortSet(p) then p
    else if TextSet(EnvGet(env, PORT_VARIABLE)) then TextPort(env[PORT_VARIABLE])
    else IntPort(DEFAULT_PORT)
  }

  /** Python's `int(port)` on the chosen port value. `PortChoice` never
      leaves `NoPort`, for which `int(None)` would raise `TypeError`. */
  function PortNumber(q: PortValue): (r: Result<int, EndpointError>)
    requires PortSet(q)
    ensures q.IntPort? ==> r == Success(q.n)
    ensures q.TextPort? ==> (r.Success? <==> ParseDecimal(q.text).Some?)
    ensures q.TextPort? && r.Success? ==> r.value == ParseDecimal(q.text).value
    ensures r.Failure? ==> q.TextPort? && r.error == InvalidPort(q.text) && ParseDecimal(q.text).None?
  {
    match q
    case NoPort => assert false; Success(0)
    case IntPort(n) => Success(n)
    case TextPort(t) =>
      match ParseDecimal(t)
      case Some(n) => Success(n)
      case None => Failure(InvalidPort(t))
  }

  /** The endpoint on `host` with the port that the fallbacks give for `p`. */
  function WithPort(host: string, p: PortValue, env: map<string, string>): (r: Result<Endpoint, EndpointError>)
    ensures r.Success? ==> r.value.host == host
    ensures r.Failure? ==> ParseDecimal(r.error.text).None?
  {
    match PortNumber(PortChoice(p, env))
    case Success(port) => Success(Endpoint(host, port))
    case Failure(e) => Failure(e)
  }

  /** The endpoint the constructor connects to, or the error it raises. */
  function Resolve(hostArg: Option<string>, portArg: PortValue, env: map<string, string>): (r: Result<Endpoint, EndpointError>)
    ensures r.Success? ==> r.value.host == Before(ChosenHost(hostArg, env), ':')
    ensures r.Failure? ==> ParseDecimal(r.error.text).None?
  {
    var chosen := ChosenHost(hostArg, env);
    if ':' in chosen then
      var embedded := Before(After(chosen, ':'), ':');
      match ParseDecimal(embedded)
      case None => Failure(InvalidPort(embedded))
      case Some(n) => WithPort(Before(chosen, ':'), IntPort(n), env)
    else
      WithPort(chosen, portArg, env)
  }

  /** The non-`iprot` branch of `HMSClient.__init__`, step by step: the
      resulting pair is what the socket is opened on. */
  method ResolveEndpoint(hostArg: Option<string>, portArg: PortValue, env: map<string, string>)
    returns (r: Result<Endpoint, EndpointError>)
    ensures r == Resolve(hostArg, portArg, env)
  {
    var host := hostArg;
    var port := portArg;
    if !TextSet(host) {
      host := EnvGet(env, HOST_VARIABLE);
    }
    if !TextSet(host) {
      host := Some(DEFAULT_HOST);
    }
    var h := host.value;
    assert h == ChosenHost(hostArg, env);
    if ':' in h {
      var parts := Split(h, ':');
      SplitSecond(h, ':');
      var n := ParseDecimal(parts[1]);
      if n.None? {
        assert Resolve(hostArg, portArg, env) == Failure(InvalidPort(parts[1]));
        return Failure(InvalidPort(parts[1]));
      }
      assert Resolve(hostArg, portArg, env) == WithPort(parts[0], IntPort(n.value), env);
      h := parts[0];
      port := IntPort(n.value);
    } else {
      assert Resolve(hostArg, portArg, env) == WithPort(h, portArg, env);
    }
    ghost var given := port;
    assert Resolve(hostArg, portArg, env) == WithPort(h, given, env);
    if !PortSet(port) {
      port := match EnvGet(env, PORT_VARIABLE)
        case Some(t) => TextPort(t)
        case None => NoPort;
    }
    if !PortSet(port) {
      port := IntPort(DEFAULT_PORT);
    }
    assert port == PortChoice(given, env);
    var number := PortNumber(port);
    if number.Failure? {
      return Failure(number.error);
    }
    r := Success(Endpoint(h, number.value));
  }

  /** The host is empty exactly when the chosen text starts with a colon,
      and never otherwise. */
  lemma HostBeforeColon(hostArg: Option<string>, portArg: PortValue, env: map<string, string>)
    requires Resolve(hostArg, portArg, env).Success?
    ensures Resolve(hostArg, portArg, env).value.host == "" <==> ChosenHost(hostArg, env)[0] == ':'
  {
  }

  /** A colon in the chosen host: the number after it is the port and the
      port argument is ignored, unless that number is 0, which Python treats
      as no port at all, so HMS_PORT or the default applies. Text after the
      colon that is not a number is an error. */
  lemma {:induction false} EmbeddedPort(hostArg: Option<string>, portArg: PortValue, env: map<string, string>)
    requires ':' in ChosenHost(hostArg, env)
    ensures var chosen := ChosenHost(hostArg, env);
            var embedded := Before(After(chosen, ':'), ':');
            match ParseDecimal(embedded)
            case None => Resolve(hostArg, portArg, env) == Failure(InvalidPort(embedded))
            case Some(n) =>
              (n != 0 ==> Resolve(hostArg, portArg, env) == Success(Endpoint(Before(chosen, ':'), n))) &&
              (n == 0 ==> Resolve(hostArg, portArg, env) == WithPort(Before(chosen, ':'), NoPort, env))
  {
    var chosen := ChosenHost(hostArg, env);
    var embedded := Before(After(chosen, ':'), ':');
    match ParseDecimal(embedded)
    case None =>
    case Some(n) =>
      assert Resolve(hostArg, portArg, env) == WithPort(Before(chosen, ':'), IntPort(n), env);
      if n == 0 {
        assert PortChoice(IntPort(n), env) == PortChoice(NoPort, env);
      } else {
        assert PortChoice(IntPort(n), env) == IntPort(n);
      }
  }

  /** No colon in the chosen host: the port argument when set, else HMS_PORT
      when set, else 9083. */
  lemma PlainHost(hostArg: Option<string>, portArg: PortValue, env: map<string, string>)
    requires ':' !in ChosenHost(hostArg, env)
    ensures PortSet(portArg) ==>
              Resolve(hostArg, portArg, env) == match PortNumber(portArg)
                case Success(n) => Success(Endpoint(ChosenHost(hostArg, env), n))
                case Failure(e) => Failure(e)
    ensures !PortSet(portArg) && !TextSet(EnvGet(env, PORT_VARIABLE)) ==>
              Resolve(hostArg, portArg, env) == Success(Endpoint(ChosenHost(hostArg, env), DEFAULT_PORT))
    ensures !PortSet(portArg) && TextSet(EnvGet(env, PORT_VARIABLE)) ==>
              Resolve(hostArg, portArg, env) == match ParseDecimal(env[PORT_VARIABLE])
                case Some(n) => Success(Endpoint(ChosenHost(hostArg, env), n))
                case None => Failure(InvalidPort(env[PORT_VARIABLE]))
  {
  }

  /** With no arguments and an empty environment: localhost:9083. */
  lemma DefaultEndpoint()
    ensures Resolve(None, NoPort, map[]) == Success(Endpoint("localhost", 9083))
  {
    assert ChosenHost(None, map[]) == DEFAULT_HOST;
    assert forall k :: 0 <= k < |DEFAULT_HOST| ==> DEFAULT_HOST[k] != ':';
    assert PortChoice(NoPort, map[]) == IntPort(DEFAULT_PORT);
  }

  /** A chosen host "h:n" with a non-zero n gives h:n, whatever the
      port argument and HMS_PORT say. */
  lemma {:induction false} HostWithPort(hostArg: Option<string>, portArg: PortValue, env: map<string, string>, h: string, n: nat)
    requires ':' !in h && n != 0
    requires ChosenHost(hostArg, env) == h + ":" + ShowDecimal(n)
    ensures Resolve(hostArg, portArg, env) == Success(Endpoint(h, n))
  {
    FirstSeparator(h, ':', ShowDecimal(n));
    assert Before(ShowDecimal(n), ':') == ShowDecimal(n);
    ParseShowDecimal(n);
    EmbeddedPort(hostArg, portArg, env);
  }

  /** An explicit "host:port" decides the endpoint whatever the environment
      and the port argument say. */
  lemma ExplicitHostPort(h: string, n: nat, portArg: PortValue, env: map<string, string>)
    requires ':' !in h && n != 0
    ensures Resolve(Some(h + ":" + ShowDecimal(n)), portArg, env) == Success(Endpoint(h, n))
  {
    HostWithPort(Some(h + ":" + ShowDecimal(n)), portArg, env, h, n);
  }

  /** HMS_HOST="foo:123" with no arguments gives foo:123. */
  lemma EnvironmentHostPort()
    ensures Resolve(None, NoPort, map[HOST_VARIABLE := "foo:123"]) == Success(Endpoint("foo", 123))
  {
    var env := map[HOST_VARIABLE := "foo:123"];
    assert ShowDecimal(123) == "123";
    assert ChosenHost(None, env) == "foo" + ":" + ShowDecimal(123);
    HostWithPort(None, NoPort, env, "foo", 123);
  }

  /** "bar:0" names port 0, which counts as no port: the explicit port
      argument given beside it is overwritten and lost. */
  lemma ZeroEmbeddedPort()
    ensures Resolve(Some("bar:0"), IntPort(1234), map[]) == Success(Endpoint("bar", DEFAULT_PORT))
  {
    FirstSeparator("bar", ':', "0");
    assert "bar:0" == "bar" + [':'] + "0";
    assert ParseDecimal("0") == Some(0);
    EmbeddedPort(Some("bar:0"), IntPort(1234), map[]);
    assert PortChoice(NoPort, map[]) == IntPort(DEFAULT_PORT);
  }

  /** ":123" gives an empty host. */
  lemma EmptyHostFromLeadingColon()
    ensures Resolve(Some(":123"), NoPort, map[]) == Success(Endpoint("", 123))
  {
    FirstSeparator("", ':', "123");
    assert ":123" == "" + [':'] + "123";
    assert ShowDecimal(123) == "123";
    ParseShowDecimal(123);
    EmbeddedPort(Some(":123"), NoPort, map[]);
  }

  /** HMS_PORT="0" is non-empty text, so it is used as it is: port 0. */
  lemma ZeroEnvironmentPort()
    ensures Resolve(Some("h"), NoPort, map[PORT_VARIABLE := "0"]) == Success(Endpoint("h", 0))
  {
    var env := map[PORT_VARIABLE := "0"];
    assert ChosenHost(Some("h"), env) == "h";
    assert ':' !in "h";
    assert PortChoice(NoPort, env) == TextPort("0");
    assert ParseDecimal("0") == Some(0);
  }

  /** A negative explicit port is truthy, so it is used as it is. */
  lemma NegativeExplicitPort()
    ensures Resolve(Some("h"), IntPort(-1), map[]) == Success(Endpoint("h", -1))
  {
    assert ChosenHost(Some("h"), map[]) == "h";
    assert ':' !in "h";
  }
}
