/** The checks a connection test makes on a resolved profile before it opens any connection, in their order. */
module ProfileValidation {
  import opened Wrappers
  import opened Bytes
  import opened Profiles

  datatype Address = Address(version: int, packed: seq<Byte>)

  /** int(), float(), ip_address(), str() of an address, is_loopback, encode("utf-8") and the demo trust-file rule. */
  datatype Library = Library(
    parseInt: string -> Option<int>, parseFloat: string -> Option<real>,
    address: string -> Option<Address>, addressText: Address -> string, loopback: Address -> bool,
    encode: string -> seq<Byte>, demoTrustFile: Value -> bool)

  datatype Fault = Validation | UnsupportedKind | DemoPolicy | Crash

  datatype Valid = Valid(device: Dict, connector: Dict, seconds: real)

  const NETWORK_HOST := Extra("network_host")
  const PASSWORD := Text("password")
  const SSH_KEY := Text("ssh_key")

  // ---------------------------------------------------------------------------
  // Ports and hosts.

  function CheckedPort(v: Value, lib: Library): Result<int, Fault> {
    var port := if v.Int? then Some(v.whole) else if v.Text? then lib.parseInt(v.text) else None;
    if port.None? || !(1 <= port.value <= 65535) then Failure(Validation) else Success(port.value)
  }

  predicate AlphaNumeric(c: char) {
    'a' <= c <= 'z' || 'A' <= c <= 'Z' || '0' <= c <= '9'
  }

  predicate HostName(s: string) {
    && 1 <= |s| <= 253 && AlphaNumeric(s[0]) && AlphaNumeric(s[|s| - 1])
    && (forall i | 0 <= i < |s| :: AlphaNumeric(s[i]) || s[i] == '.' || s[i] == '-')
    && (forall i | 0 <= i < |s| - 1 :: !(s[i] == '.' && s[i + 1] == '.'))
  }

  predicate AcceptedHost(s: string, lib: Library) {
    s != "" && s == StripRight(StripLeft(s)) && '%' !in s && (lib.address(s).Some? || HostName(s))
  }

  function CheckedHost(v: Value, lib: Library): Result<string, Fault> {
    if v.Text? && AcceptedHost(v.text, lib) then Success(v.text) else Failure(Validation)
  }

  function Lower(c: char): char {
    if 'A' <= c <= 'Z' then 'a' + (c - 'A') else c
  }

  predicate LocalHost(s: string) {
    |s| == 9 && forall i | 0 <= i < 9 :: Lower(s[i]) == "localhost"[i]
  }

  function LoopbackHost(s: string, lib: Library): Result<string, Fault> {
    if LocalHost(s) then Success("127.0.0.1")
    else
      var address := lib.address(s);
      if address.Some? && lib.loopback(address.value) then Success(lib.addressText(address.value)) else Failure(DemoPolicy)
  }

  predicate DemoFilesAllowed(auth: Dict, lib: Library) {
    !Truthy(Get(auth, PrivateKeyPath))
    && (Truthy(Get(auth, KnownHostsPath)) ==> lib.demoTrustFile(Get(auth, KnownHostsPath)))
  }

  // ---------------------------------------------------------------------------
  // Logins.

  predicate Bounded(v: Value) {
    v.Null? || (v.Text? && |v.text| <= 4096 && forall i | 0 <= i < |v.text| :: v.text[i] >= ' ' && v.text[i] != '\U{007F}')
  }

  predicate Hashable(v: Value) {
    !v.Object? && !v.Other?
  }

  function LoginMethod(auth: Dict): Value {
    GetOr(auth, AuthenticationType, if HasKey(auth) then SSH_KEY else PASSWORD)
  }

  function NamedText(v: Value): bool {
    v.Text? && v.text != ""
  }

  function LoginFault(auth: Dict, required: bool, ssh: bool): Option<Fault> {
    if required && !NamedText(Get(auth, Username)) then Some(Validation)
    else if !Bounded(Get(auth, Username)) || !Bounded(Get(auth, Password)) || !Bounded(Get(auth, KeyPassphrase)) then Some(Validation)
    else MethodFault(auth, required, ssh)
  }

  function MethodFault(auth: Dict, required: bool, ssh: bool): Option<Fault> {
    var way := LoginMethod(auth);
    var password := Truthy(Get(auth, Password));
    if !Hashable(way) then Some(Crash)
    else if way != PASSWORD && way != SSH_KEY then Some(UnsupportedKind)
    else if way == SSH_KEY || HasKey(auth) then
      if !ssh then Some(UnsupportedKind)
      else if !HasKey(auth) || way != SSH_KEY || password then Some(Validation)
      else if Truthy(Get(auth, PrivateKey)) && Truthy(Get(auth, PrivateKeyPath)) then Some(Validation)
      else None
    else if required && !password then Some(Validation)
    else if !required && Truthy(Get(auth, Username)) != password then Some(Validation)
    else None
  }

  // ---------------------------------------------------------------------------
  // The whole profile.

  function DefaultPort(protocol: Value): Value {
    if protocol == Text("ssh") then Int(22) else if protocol == Text("netconf") then Int(830) else Int(23)
  }

  function Power2(n: nat): (p: nat)
    ensures p > n
  {
    if n == 0 then 1 else 2 * Power2(n - 1)
  }

  /** float() of an integer that would round to infinity raises OverflowError, which nothing catches. */
  predicate FitsFloat(n: int) {
    -(Power2(1024) - Power2(970)) < n < Power2(1024) - Power2(970)
  }

  function ReadSeconds(v: Value, lib: Library): Option<real> {
    match v
    case Int(n) => Some(n as real)
    case Float(r) => Some(r)
    case Text(s) => lib.parseFloat(s)
    case _ => None
  }

  function CheckedSeconds(v: Value, lib: Library): Result<real, Fault> {
    if v.Int? && !FitsFloat(v.whole) then Failure(Crash)
    else
      var seconds := ReadSeconds(v, lib);
      if seconds.None? || !(1.0 <= seconds.value <= 30.0) then Failure(Validation) else Success(seconds.value)
  }

  lemma {:induction false} Power2Grows(m: nat, n: nat)
    requires m <= n
    ensures Power2(m) <= Power2(n)
  {
    if m < n {
      Power2Grows(m, n - 1);
    }
  }

  lemma SmallFits(n: int)
    requires -1000 <= n <= 1000
    ensures FitsFloat(n)
  {
    var half := Power2(1023);
    Power2Grows(970, 1023);
    assert Power2(1024) == 2 * half;
    hide Power2;
  }

  lemma SecondsExactly(v: Value, lib: Library)
    ensures CheckedSeconds(v, lib).Success? <==>
              ReadSeconds(v, lib).Some? && 1.0 <= ReadSeconds(v, lib).value <= 30.0
    ensures CheckedSeconds(v, lib).Success? ==> CheckedSeconds(v, lib) == Success(ReadSeconds(v, lib).value)
    ensures CheckedSeconds(v, lib) == Failure(Crash) <==> v.Int? && !FitsFloat(v.whole)
  {
    hide FitsFloat, Power2;
    if v.Int? && 1 <= v.whole <= 30 {
      SmallFits(v.whole);
    }
  }

  predicate IsConnectorType(v: Value) {
    v == DIRECT || IsProxyType(v)
  }

  /** The kinds of device and connector, and their combination. */
  function KindFault(device: Dict, raw: Value): Option<Fault> {
    var protocol := Get(device, Protocol);
    var proxied := Truthy(Get(device, ProxyId));
    if !Hashable(protocol) then Some(Crash)
    else if !IsProtocol(protocol) then Some(UnsupportedKind)
    else if proxied && Connector !in device then Some(Validation)
    else if !raw.Object? then Some(Validation)
    else
      var kind := Get(raw.fields, Type);
      if !Hashable(kind) then Some(Crash)
      else if !IsConnectorType(kind) then Some(UnsupportedKind)
      else if proxied && kind == DIRECT then Some(Validation)
      else if kind == Text("ssh_shell") && protocol != Text("telnet") then Some(UnsupportedKind)
      else None
  }

  function WithEndpoint(d: Dict, port: Value, lib: Library): Result<Dict, Fault> {
    var host :- CheckedHost(Get(d, Host), lib);
    var number :- CheckedPort(port, lib);
    Success(d[Host := Text(host)][Port := Int(number)])
  }

  /** The literal loopback address that a demo connection dials instead of its host. */
  function Dialled(d: Dict, lib: Library): Result<Dict, Fault> {
    if !Get(d, Host).Text? then Failure(Validation)
    else
      var address :- LoopbackHost(Get(d, Host).text, lib);
      Success(d[NETWORK_HOST := Text(address)])
  }

  function Raw(device: Dict): Value {
    GetOr(device, Connector, Object(map[Type := DIRECT]))
  }

  function Networked(device: Dict, connector: Dict, demo: bool, lib: Library): Result<(Dict, Dict), Fault> {
    if !demo then Success((device[NETWORK_HOST := Get(device, Host)], connector[NETWORK_HOST := Get(connector, Host)]))
    else
      var direct := Get(connector, Type) == DIRECT;
      var device1 :- Dialled(device, lib);
      var connector1 :- if direct then Success(connector) else Dialled(connector, lib);
      if !DemoFilesAllowed(device1, lib) || (!direct && !DemoFilesAllowed(connector1, lib)) then Failure(DemoPolicy)
      else Success((device1, connector1))
  }

  predicate StartsSsh(kind: Value) {
    kind == Text("ssh_tunnel") || kind == Text("ssh_shell")
  }

  function LoginsFault(device: Dict, connector: Dict): Option<Fault> {
    var kind := Get(connector, Type);
    var own := LoginFault(device, true, Get(device, Protocol) != Text("telnet"));
    if own.Some? then own
    else if kind == DIRECT then None
    else
      var proxy := LoginFault(connector, StartsSsh(kind), StartsSsh(kind));
      if proxy.Some? then proxy
      else if kind == Text("http_connect") && Get(connector, Username).Text? && ':' in Get(connector, Username).text then Some(Validation)
      else None
  }

  /** Kinds, hosts, ports and the time limit. */
  function Endpoints(profile: Value, lib: Library): Result<Valid, Fault> {
    if !profile.Object? then Failure(Validation)
    else if KindFault(profile.fields, Raw(profile.fields)).Some? then Failure(KindFault(profile.fields, Raw(profile.fields)).value)
    else
      var raw := Raw(profile.fields).fields;
      var kind := Get(raw, Type);
      var device :- WithEndpoint(profile.fields, GetOr(profile.fields, Port, DefaultPort(Get(profile.fields, Protocol))), lib);
      var connector :- if kind == DIRECT then Success(raw[Type := kind]) else WithEndpoint(raw[Type := kind], Get(raw, Port), lib);
      var seconds :- CheckedSeconds(GetOr(device, TimeoutSeconds, Int(5)), lib);
      Success(Valid(device, connector, seconds))
  }

  /** The addresses to dial, and the logins. */
  function Completed(v: Valid, demo: bool, lib: Library): Result<Valid, Fault> {
    var both :- Networked(v.device, v.connector, demo, lib);
    var fault := LoginsFault(both.0, both.1);
    if fault.Some? then Failure(fault.value) else Success(Valid(both.0, both.1, v.seconds))
  }

  /** validate_profile. */
  function Validated(profile: Value, demo: bool, lib: Library): Result<Valid, Fault> {
    var v :- Endpoints(profile, lib);
    Completed(v, demo, lib)
  }
}
