/** The light service (`ElgatoLightService`): each on/off command becomes one HTTP PUT
    per configured address, in list order, with a fixed URL shape and JSON body. */
module Lights {
  import opened Wrappers
  import opened Text
  import opened Traces
  import opened Config

  /** One `SendLightRequest(ip, brightness, temperature, turnOn)` call. */
  datatype Request = Request(ip: string, brightness: int, temperature: int, turnOn: bool)

  /** The settings the service copies from the configuration when it is constructed. */
  datatype LightService = LightService(addresses: seq<string>, brightness: int, temperature: int)

  function FromSettings(c: Settings): LightService
  {
    LightService(c.addresses, c.brightness, c.temperature)
  }

  // ---- URL ----

  const UrlScheme: string := "http://"
  const UrlPath: string := ":9123/elgato/lights"

  /** The request URL for a light at `ip`. */
  function Url(ip: string): string
  {
    UrlScheme + ip + UrlPath
  }

  /** The address a request URL was built from, or `None` if it does not have the shape. */
  function HostOf(url: string): Option<string>
  {
    if |UrlScheme| + |UrlPath| <= |url| && url[..|UrlScheme|] == UrlScheme && url[|url| - |UrlPath|..] == UrlPath
    then Some(url[|UrlScheme|..|url| - |UrlPath|])
    else None
  }

  /** Every URL names its light: the address is recovered from it. */
  lemma HostOfUrl(ip: string)
    ensures HostOf(Url(ip)) == Some(ip)
  {
    var u := Url(ip);
    assert u[..|UrlScheme|] == UrlScheme;
    assert u[|u| - |UrlPath|..] == UrlPath;
    assert u[|UrlScheme|..|u| - |UrlPath|] == ip;
  }

  // ---- JSON bodies ----

  const OnPrefix: string := "{\"lights\":[{\"brightness\":"
  const TemperatureKey: string := "\"temperature\":"
  const OnSuffix: string := "\"on\":1}]}"

  /** The body switching a light off; it carries no settings. */
  const OffBody: string := "{\"lights\":[{\"on\":0}]}"

  /** The body switching a light on at brightness `b` and temperature `t`. */
  function OnBody(b: int, t: int): string
  {
    OnPrefix + IntToString(b) + "," + TemperatureKey + IntToString(t) + "," + OnSuffix
  }

  /** The body of a request. */
  function Body(r: Request): string
  {
    if r.turnOn then OnBody(r.brightness, r.temperature) else OffBody
  }

  predicate StartsWith(s: string, prefix: string) {
    |prefix| <= |s| && s[..|prefix|] == prefix
  }

  /** Reads brightness and temperature back out of an "on" body; `None` for anything
      else, the "off" body included. */
  function ParseOnBody(body: string): Option<(int, int)>
  {
    var parts := Split(body, ',');
    if |parts| == 3 && StartsWith(parts[0], OnPrefix) && StartsWith(parts[1], TemperatureKey) && parts[2] == OnSuffix then
      var b := ParseInt(parts[0][|OnPrefix|..]);
      var t := ParseInt(parts[1][|TemperatureKey|..]);
      if b.Some? && t.Some? then Some((b.value, t.value)) else None
    else
      None
  }

  /** Two values framed as in the "on" body are three pieces joined with ','. */
  lemma FramePieces(x: string, y: string)
    ensures OnPrefix + x + "," + TemperatureKey + y + "," + OnSuffix
         == Join([OnPrefix + x, TemperatureKey + y, OnSuffix], ',')
  {
    Join3(OnPrefix + x, TemperatureKey + y, OnSuffix, ',');
    assert "," == [','];
  }

  /** The "on" body is three pieces joined with ','. */
  lemma OnBodyPieces(b: int, t: int)
    ensures OnBody(b, t) == Join([OnPrefix + IntToString(b), TemperatureKey + IntToString(t), OnSuffix], ',')
  {
    FramePieces(IntToString(b), IntToString(t));
  }

  /** None of the fixed JSON fragments holds a comma. */
  lemma FragmentsCommaFree()
    ensures ',' !in OnPrefix && ',' !in TemperatureKey && ',' !in OnSuffix
  {
  }

  /** A key followed by a rendered integer starts with the key, reads back as that
      integer, and holds a comma only if the key does. */
  lemma FieldRoundTrip(key: string, i: int)
    ensures StartsWith(key + IntToString(i), key)
    ensures ParseInt((key + IntToString(i))[|key|..]) == Some(i)
    ensures ',' in key + IntToString(i) ==> ',' in key
  {
    var f := key + IntToString(i);
    assert f[..|key|] == key && f[|key|..] == IntToString(i);
    ParseIntToString(i);
    IntToStringChars(i, ',');
  }

  /** Splitting the "on" body on ',' gives back its three pieces. */
  lemma SplitOnBody(b: int, t: int)
    ensures Split(OnBody(b, t), ',') == [OnPrefix + IntToString(b), TemperatureKey + IntToString(t), OnSuffix]
  {
    var parts := [OnPrefix + IntToString(b), TemperatureKey + IntToString(t), OnSuffix];
    OnBodyPieces(b, t);
    FieldRoundTrip(OnPrefix, b);
    FieldRoundTrip(TemperatureKey, t);
    FragmentsCommaFree();
    assert forall i :: 0 <= i < |parts| ==> ',' !in parts[i];
    SplitJoin(parts, ',');
  }

  /** The "on" body carries exactly the brightness and temperature it was built from. */
  lemma ParseOnBodyRoundTrip(b: int, t: int)
    ensures ParseOnBody(OnBody(b, t)) == Some((b, t))
  {
    SplitOnBody(b, t);
    FieldRoundTrip(OnPrefix, b);
    FieldRoundTrip(TemperatureKey, t);
  }

  /** The "off" body is never read as an "on" body. */
  lemma OffBodyIsNotOn()
    ensures ParseOnBody(OffBody) == None
  {
    assert ',' !in OffBody;
    SplitJoin([OffBody], ',');
  }

  /** Different settings give different "on" bodies, and no "on" body is the "off" body. */
  lemma BodiesDistinguishSettings(b1: int, t1: int, b2: int, t2: int)
    ensures OnBody(b1, t1) == OnBody(b2, t2) ==> b1 == b2 && t1 == t2
    ensures OnBody(b1, t1) != OffBody
  {
    ParseOnBodyRoundTrip(b1, t1);
    ParseOnBodyRoundTrip(b2, t2);
    OffBodyIsNotOn();
  }

  // ---- fan-out ----

  /** One request per configured address, in list order. */
  function FanOut(ips: seq<string>, b: int, t: int, on: bool): (r: seq<Request>)
    ensures |r| == |ips|
    ensures forall i :: 0 <= i < |ips| ==> r[i] == Request(ips[i], b, t, on)
    decreases |ips|
  {
    if |ips| == 0 then [] else [Request(ips[0], b, t, on)] + FanOut(ips[1..], b, t, on)
  }

  /** `TurnOnLights`: the configured settings, on, to every address. */
  function TurnOnLights(svc: LightService): seq<Request>
  {
    FanOut(svc.addresses, svc.brightness, svc.temperature, true)
  }

  /** `TurnOffLights`: brightness 0, temperature 0, off, to every address. */
  function TurnOffLights(svc: LightService): seq<Request>
  {
    FanOut(svc.addresses, 0, 0, false)
  }

  /** The request one command makes of the light at `ip`: the configured settings to
      switch on, zeros to switch off. */
  function RequestFor(svc: LightService, cmd: Command, ip: string): Request
  {
    match cmd
    case TurnOn => Request(ip, svc.brightness, svc.temperature, true)
    case TurnOff => Request(ip, 0, 0, false)
  }

  /** The requests one command stands for. */
  function Requests(svc: LightService, cmd: Command): (r: seq<Request>)
    ensures |r| == |svc.addresses|
    ensures forall i :: 0 <= i < |r| ==> r[i].ip == svc.addresses[i] && r[i].turnOn == (cmd == TurnOn)
    ensures forall i :: 0 <= i < |r| ==> r[i] == RequestFor(svc, cmd, svc.addresses[i])
  {
    match cmd
    case TurnOn => TurnOnLights(svc)
    case TurnOff => TurnOffLights(svc)
  }

  /** Every request of "turn on" carries the configured settings in its body; every
      request of "turn off" carries the "off" body. */
  lemma RequestBodies(svc: LightService, cmd: Command)
    ensures forall i :: 0 <= i < |Requests(svc, cmd)| ==>
      Body(Requests(svc, cmd)[i]) == if cmd == TurnOn then OnBody(svc.brightness, svc.temperature) else OffBody
  {
  }

  /** One PUT: the request sent, and whether it went through. Its URL and body are
      determined by the request. */
  datatype Delivery = Delivery(request: Request, delivered: bool)
  {
    function Target(): string { Url(request.ip) }
    function Payload(): string { Body(request) }
  }

  /** Every delivery is addressed to its own light. */
  lemma DeliveryTargetsItsLight(d: Delivery)
    ensures HostOf(d.Target()) == Some(d.request.ip)
  {
    HostOfUrl(d.request.ip);
  }

  /** Sends one command to every light, in list order. `network` says whether a PUT
      succeeds; a failure is caught and logged per address and never stops the loop. */
  method SendCommand(svc: LightService, cmd: Command, network: Request -> bool) returns (log: seq<Delivery>)
    ensures |log| == |svc.addresses|
    ensures forall i :: 0 <= i < |log| ==>
      && log[i].request == RequestFor(svc, cmd, svc.addresses[i])
      && log[i].delivered == network(log[i].request)
  {
    log := [];
    var k := 0;
    while k < |svc.addresses|
      invariant 0 <= k <= |svc.addresses|
      invariant |log| == k
      invariant forall i :: 0 <= i < k ==>
        log[i] == Delivery(RequestFor(svc, cmd, svc.addresses[i]), network(RequestFor(svc, cmd, svc.addresses[i])))
    {
      var r := RequestFor(svc, cmd, svc.addresses[k]);
      log := log + [Delivery(r, network(r))];
      k := k + 1;
    }
  }

  /** The requests a trace of commands stands for, command by command. */
  function Dispatch(svc: LightService, trace: seq<Action>): (r: seq<Request>)
    ensures |r| == |trace| * |svc.addresses|
    decreases |trace|
  {
    if |trace| == 0 then []
    else
      var rest := Dispatch(svc, trace[1..]);
      assert |trace| * |svc.addresses| == |svc.addresses| + (|trace| - 1) * |svc.addresses|;
      Requests(svc, trace[0].cmd) + rest
  }

  /** One command stands for the requests `Requests` lists for it. */
  lemma DispatchOne(svc: LightService, a: Action)
    ensures Dispatch(svc, [a]) == Requests(svc, a.cmd)
  {
    assert [a][1..] == [];
  }

  /** Dispatching two traces one after the other is dispatching their concatenation. */
  lemma {:induction false} DispatchAppend(svc: LightService, x: seq<Action>, y: seq<Action>)
    ensures Dispatch(svc, x + y) == Dispatch(svc, x) + Dispatch(svc, y)
    decreases |x|
  {
    if |x| == 0 {
      assert x + y == y;
    } else {
      assert (x + y)[0] == x[0] && (x + y)[1..] == x[1..] + y;
      DispatchAppend(svc, x[1..], y);
    }
  }

  /** The `k`-th command of a trace contributes exactly its own requests, after those
      of the `k` commands before it (`k * |addresses|` of them). */
  lemma DispatchSplit(svc: LightService, trace: seq<Action>, k: nat)
    requires k < |trace|
    ensures Dispatch(svc, trace)
            == Dispatch(svc, trace[..k]) + Requests(svc, trace[k].cmd) + Dispatch(svc, trace[k + 1..])
    ensures |Dispatch(svc, trace[..k])| == k * |svc.addresses|
  {
    var pre, post := trace[..k], trace[k + 1..];
    assert |pre| == k;
    assert trace == pre + ([trace[k]] + post);
    DispatchAppend(svc, pre, [trace[k]] + post);
    DispatchAppend(svc, [trace[k]], post);
    DispatchOne(svc, trace[k]);
    assert Dispatch(svc, trace) == Dispatch(svc, pre) + (Requests(svc, trace[k].cmd) + Dispatch(svc, post));
  }

  // ---- configuration to lights ----

  /** A configuration that passes validation reaches at least one light, and every "on"
      body it sends reads back as the configured, in-range brightness and temperature. */
  lemma ValidSettingsGiveValidOnBodies(c: Settings)
    requires ValidateConfig(c) == Pass
    ensures |Requests(FromSettings(c), TurnOn)| > 0
    ensures forall i :: 0 <= i < |Requests(FromSettings(c), TurnOn)| ==>
      var parsed := ParseOnBody(Body(Requests(FromSettings(c), TurnOn)[i]));
      && parsed == Some((c.brightness, c.temperature))
      && 1 <= parsed.value.0 <= 100 && 143 <= parsed.value.1 <= 344
  {
    RequestBodies(FromSettings(c), TurnOn);
    ParseOnBodyRoundTrip(c.brightness, c.temperature);
  }
}
