/** What validation accepts, stated without the order of its checks, and validation as the code runs it. */
module ProfileAcceptance {
  import opened Wrappers
  import opened Profiles
  import opened ProfileValidation

  // ---------------------------------------------------------------------------
  // What acceptance means, in terms of the profile alone.

  /** One kind of credential: a single key where SSH is spoken, or a password; optional logins are whole or absent. */
  predicate LoginAccepted(auth: Dict, required: bool, ssh: bool) {
    && Bounded(Get(auth, Username)) && Bounded(Get(auth, Password)) && Bounded(Get(auth, KeyPassphrase))
    && (required ==> NamedText(Get(auth, Username)))
    && (KeyLogin(auth, ssh) || PasswordLogin(auth, required))
  }

  predicate KeyLogin(auth: Dict, ssh: bool) {
    && ssh && LoginMethod(auth) == SSH_KEY && !Truthy(Get(auth, Password))
    && (Truthy(Get(auth, PrivateKey)) <==> !Truthy(Get(auth, PrivateKeyPath)))
  }

  predicate PasswordLogin(auth: Dict, required: bool) {
    && LoginMethod(auth) == PASSWORD && !HasKey(auth)
    && (Truthy(Get(auth, Password)) <==> required || Truthy(Get(auth, Username)))
  }

  lemma LoginExactly(auth: Dict, required: bool, ssh: bool)
    ensures LoginFault(auth, required, ssh).None? <==> LoginAccepted(auth, required, ssh)
  {
    hide Bounded, LoginMethod, Hashable;
    WaysHash();
  }

  lemma WaysHash()
    ensures Hashable(PASSWORD) && Hashable(SSH_KEY) && PASSWORD != SSH_KEY
  {
  }

  predicate Reachable(d: Dict, port: Value, lib: Library) {
    CheckedHost(Get(d, Host), lib).Success? && CheckedPort(port, lib).Success?
  }

  predicate KindsFit(d: Dict, raw: Value) {
    && IsProtocol(Get(d, Protocol)) && raw.Object? && IsConnectorType(Get(raw.fields, Type))
    && (Truthy(Get(d, ProxyId)) ==> Connector in d && Get(raw.fields, Type) != DIRECT)
    && (Get(raw.fields, Type) == Text("ssh_shell") ==> Get(d, Protocol) == Text("telnet"))
  }

  predicate Loopback(d: Dict, lib: Library) {
    Get(d, Host).Text? && LoopbackHost(Get(d, Host).text, lib).Success? && DemoFilesAllowed(d, lib)
  }

  predicate LoginsAccepted(device: Dict, connector: Dict) {
    var kind := Get(connector, Type);
    && LoginAccepted(device, true, Get(device, Protocol) != Text("telnet"))
    && (kind != DIRECT ==> LoginAccepted(connector, StartsSsh(kind), StartsSsh(kind)))
    && (kind == Text("http_connect") && Get(connector, Username).Text? ==> ':' !in Get(connector, Username).text)
  }

  predicate EndpointsAcceptable(profile: Value, lib: Library) {
    profile.Object? &&
    var d, raw := profile.fields, Raw(profile.fields);
    var seconds := ReadSeconds(GetOr(d, TimeoutSeconds, Int(5)), lib);
    && KindsFit(d, raw)
    && Reachable(d, GetOr(d, Port, DefaultPort(Get(d, Protocol))), lib)
    && (Get(raw.fields, Type) != DIRECT ==> Reachable(raw.fields, Get(raw.fields, Port), lib))
    && seconds.Some? && 1.0 <= seconds.value <= 30.0
  }

  predicate CompletionAcceptable(device: Dict, connector: Dict, demo: bool, lib: Library) {
    && (demo ==> Loopback(device, lib) && (Get(connector, Type) != DIRECT ==> Loopback(connector, lib)))
    && LoginsAccepted(device, connector)
  }

  /** The profiles a connection test accepts; the order of the checks does not matter here. */
  predicate Acceptable(profile: Value, demo: bool, lib: Library) {
    EndpointsAcceptable(profile, lib) && CompletionAcceptable(profile.fields, Raw(profile.fields).fields, demo, lib)
  }

  /** A copy that agrees with its original on every key but the port and the dialled address. */
  ghost predicate CopyOf(copy: Dict, original: Dict) {
    forall k: Field | !k.Port? && k != NETWORK_HOST :: (k in copy <==> k in original) && Get(copy, k) == Get(original, k)
  }

  /** The number a port value denotes: an integer's own, or what int() reads in a text. */
  function PortNumber(v: Value, lib: Library): Option<int> {
    match v
    case Int(n) => Some(n)
    case Text(s) => lib.parseInt(s)
    case _ => None
  }

  /** The device's own port, or the one registered for its protocol. */
  function GivenPort(d: Dict): Value {
    if Port in d then d[Port]
    else if Get(d, Protocol) == Text("ssh") then Int(22)
    else if Get(d, Protocol) == Text("netconf") then Int(830)
    else Int(23)
  }

  predicate PortFilled(copy: Dict, given: Value, lib: Library) {
    Get(copy, Port).Int? && PortNumber(given, lib) == Some(Get(copy, Port).whole) && 1 <= Get(copy, Port).whole <= 65535
  }

  /** What is dialled is the dictionary's own host, which in demo mode must be this machine, in its literal form. */
  predicate DialsOwnHost(copy: Dict, original: Dict, demo: bool, lib: Library) {
    var host, dialled := Get(original, Host), Get(copy, NETWORK_HOST);
    if !demo then dialled == host
    else
      && host.Text? && dialled.Text?
      && (if LocalHost(host.text) then dialled.text == "127.0.0.1"
          else
            var address := lib.address(host.text);
            address.Some? && lib.loopback(address.value) && dialled.text == lib.addressText(address.value))
  }

  /** What validation hands on: copies with checked ports, and the addresses to dial. */
  ghost predicate Filled(v: Valid, profile: Value, demo: bool, lib: Library) {
    profile.Object? && Raw(profile.fields).Object? &&
    var d, c := profile.fields, Raw(profile.fields).fields;
    && CopyOf(v.device, d) && CopyOf(v.connector, c)
    && Get(v.device, Host).Text?
    && ReadSeconds(GetOr(d, TimeoutSeconds, Int(5)), lib) == Some(v.seconds)
    && PortFilled(v.device, GivenPort(d), lib) && DialsOwnHost(v.device, d, demo, lib)
    && ConnectorFilled(v.connector, c, demo, lib)
  }

  /** A direct connector dials nothing: its port stays, and in demo mode everything else does. */
  ghost predicate ConnectorFilled(copy: Dict, c: Dict, demo: bool, lib: Library) {
    if Get(c, Type) == DIRECT then
      && Get(copy, Port) == Get(c, Port)
      && (if demo then Get(copy, NETWORK_HOST) == Get(c, NETWORK_HOST) else DialsOwnHost(copy, c, demo, lib))
    else PortFilled(copy, Get(c, Port), lib) && DialsOwnHost(copy, c, demo, lib)
  }

  // ---------------------------------------------------------------------------
  // Acceptance is exactly success, and success fills copies.

  lemma EndpointExactly(d: Dict, port: Value, lib: Library)
    ensures WithEndpoint(d, port, lib).Success? <==> Reachable(d, port, lib)
    ensures WithEndpoint(d, port, lib).Success? ==> Get(WithEndpoint(d, port, lib).value, Host).Text?
    ensures WithEndpoint(d, port, lib).Success? ==>
              PortCopy(WithEndpoint(d, port, lib).value, d) && PortFilled(WithEndpoint(d, port, lib).value, port, lib)
    ensures WithEndpoint(d, port, lib) != Failure(Crash)
  {
    hide AcceptedHost;
  }

  lemma KindsExactly(d: Dict, raw: Value)
    ensures KindFault(d, raw).None? <==> KindsFit(d, raw)
  {
    hide Truthy;
  }

  /** A copy with an address to dial. */
  ghost predicate HostCopy(copy: Dict, original: Dict) {
    forall k: Field | k != NETWORK_HOST :: (k in copy <==> k in original) && Get(copy, k) == Get(original, k)
  }

  /** A copy with a checked port. */
  ghost predicate PortCopy(copy: Dict, original: Dict) {
    forall k: Field | !k.Port? :: (k in copy <==> k in original) && Get(copy, k) == Get(original, k)
  }

  /** The ports of both copies are checked numbers. */
  predicate PortsFilled(v: Valid, d: Dict, c: Dict, lib: Library) {
    && PortFilled(v.device, GivenPort(d), lib)
    && (if Get(c, Type) == DIRECT then Get(v.connector, Port) == Get(c, Port) else PortFilled(v.connector, Get(c, Port), lib))
  }

  lemma EndpointsExactly(profile: Value, lib: Library)
    ensures Endpoints(profile, lib).Success? <==> EndpointsAcceptable(profile, lib)
    ensures Endpoints(profile, lib).Success? ==>
              var v := Endpoints(profile, lib).value;
              && Get(v.device, Host).Text?
              && ReadSeconds(GetOr(profile.fields, TimeoutSeconds, Int(5)), lib) == Some(v.seconds)
              && PortCopy(v.device, profile.fields) && PortCopy(v.connector, Raw(profile.fields).fields)
              && PortsFilled(v, profile.fields, Raw(profile.fields).fields, lib)
  {
    hide KindFault, Truthy, KindsFit, Raw;
    if profile.Object? {
      KindsExactly(profile.fields, Raw(profile.fields));
      if KindsFit(profile.fields, Raw(profile.fields)) {
        KindsObject(profile.fields, Raw(profile.fields));
        FittingEndpoints(profile, lib);
      }
    }
    hide Endpoints, EndpointsAcceptable;
  }

  lemma KindsObject(d: Dict, raw: Value)
    requires KindsFit(d, raw)
    ensures raw.Object? && IsConnectorType(Get(raw.fields, Type)) && KindFault(d, raw).None?
  {
    hide Truthy;
  }

  /** The connector's copy: as it is for a direct connection, with a checked endpoint otherwise. */
  function ConnectorCopy(fields: Dict, lib: Library): Result<Dict, Fault> {
    if Get(fields, Type) == DIRECT then Success(fields) else WithEndpoint(fields, Get(fields, Port), lib)
  }

  function DeviceCopy(d: Dict, lib: Library): Result<Dict, Fault> {
    WithEndpoint(d, GetOr(d, Port, DefaultPort(Get(d, Protocol))), lib)
  }

  /** Once the kinds fit, the device, the connector and the time limit are checked in this order. */
  lemma EndpointsInOrder(profile: Value, lib: Library)
    requires profile.Object? && Raw(profile.fields).Object? && IsConnectorType(Get(Raw(profile.fields).fields, Type))
    requires KindFault(profile.fields, Raw(profile.fields)).None?
    ensures var d := profile.fields;
            var device, connector := DeviceCopy(d, lib), ConnectorCopy(Raw(d).fields, lib);
            var seconds := CheckedSeconds(GetOr(d, TimeoutSeconds, Int(5)), lib);
            Endpoints(profile, lib)
            == if device.Failure? then Failure(device.error)
               else if connector.Failure? then Failure(connector.error)
               else if seconds.Failure? then Failure(seconds.error)
               else Success(Valid(device.value, connector.value, seconds.value))
  {
    hide WithEndpoint, KindFault, CheckedSeconds, DefaultPort, IsConnectorType, Raw, PortCopy;
    var d, fields := profile.fields, Raw(profile.fields).fields;
    KindPresent(fields);
    EndpointExactly(d, GetOr(d, Port, DefaultPort(Get(d, Protocol))), lib);
    if DeviceCopy(d, lib).Success? {
      SameSeconds(DeviceCopy(d, lib).value, d);
    }
    hide GetOr;
  }

  /** The same once the kinds fit: hosts, ports and the time limit decide. */
  lemma FittingEndpoints(profile: Value, lib: Library)
    requires profile.Object? && KindsFit(profile.fields, Raw(profile.fields))
    requires Raw(profile.fields).Object? && IsConnectorType(Get(Raw(profile.fields).fields, Type))
    requires KindFault(profile.fields, Raw(profile.fields)).None?
    ensures Endpoints(profile, lib).Success? <==> EndpointsAcceptable(profile, lib)
    ensures Endpoints(profile, lib).Success? ==>
              var v := Endpoints(profile, lib).value;
              && Get(v.device, Host).Text?
              && ReadSeconds(GetOr(profile.fields, TimeoutSeconds, Int(5)), lib) == Some(v.seconds)
              && PortCopy(v.device, profile.fields) && PortCopy(v.connector, Raw(profile.fields).fields)
              && PortsFilled(v, profile.fields, Raw(profile.fields).fields, lib)
  {
    hide Endpoints, EndpointsAcceptable, KindFault, CheckedSeconds, ReadSeconds, KindsFit, IsConnectorType, Raw, PortCopy, Get,
      GetOr, DeviceCopy, ConnectorCopy, PortFilled, GivenPort;
    var d, fields := profile.fields, Raw(profile.fields).fields;
    EndpointsInOrder(profile, lib);
    DeviceExactly(d, lib);
    ConnectorExactly(fields, lib);
    SecondsExactly(GetOr(d, TimeoutSeconds, Int(5)), lib);
    AcceptableInOrder(profile, lib);
  }

  lemma DefaultIsGiven(d: Dict)
    ensures GetOr(d, Port, DefaultPort(Get(d, Protocol))) == GivenPort(d)
  {
  }

  lemma DeviceExactly(d: Dict, lib: Library)
    ensures var r := DeviceCopy(d, lib);
            && (r.Success? <==> Reachable(d, GetOr(d, Port, DefaultPort(Get(d, Protocol))), lib))
            && (r.Success? ==> Get(r.value, Host).Text? && PortCopy(r.value, d) && PortFilled(r.value, GivenPort(d), lib))
  {
    DefaultIsGiven(d);
    hide WithEndpoint, Reachable, DefaultPort, PortCopy, PortFilled, GivenPort, GetOr;
    EndpointExactly(d, GetOr(d, Port, DefaultPort(Get(d, Protocol))), lib);
  }

  lemma ConnectorExactly(fields: Dict, lib: Library)
    ensures var r := ConnectorCopy(fields, lib);
            && (r.Success? <==> (Get(fields, Type) != DIRECT ==> Reachable(fields, Get(fields, Port), lib)))
            && (r.Success? ==>
                  && PortCopy(r.value, fields)
                  && (if Get(fields, Type) == DIRECT then Get(r.value, Port) == Get(fields, Port)
                      else PortFilled(r.value, Get(fields, Port), lib)))
  {
    hide WithEndpoint, Reachable, PortCopy, PortFilled;
    EndpointExactly(fields, Get(fields, Port), lib);
    CopyReflexive(fields);
  }

  lemma AcceptableInOrder(profile: Value, lib: Library)
    requires profile.Object? && KindsFit(profile.fields, Raw(profile.fields)) && Raw(profile.fields).Object?
    ensures var d, fields := profile.fields, Raw(profile.fields).fields;
            var seconds := ReadSeconds(GetOr(d, TimeoutSeconds, Int(5)), lib);
            EndpointsAcceptable(profile, lib)
            <==> && Reachable(d, GetOr(d, Port, DefaultPort(Get(d, Protocol))), lib)
                 && (Get(fields, Type) != DIRECT ==> Reachable(fields, Get(fields, Port), lib))
                 && seconds.Some? && 1.0 <= seconds.value <= 30.0
  {
    hide Reachable, KindsFit, ReadSeconds, DefaultPort, Get, GetOr, Raw;
  }

  lemma CopyReflexive(d: Dict)
    ensures PortCopy(d, d)
  {
  }

  lemma PortCopyIsCopy(a: Dict, b: Dict)
    requires PortCopy(a, b)
    ensures CopyOf(a, b)
  {
  }

  lemma SameSeconds(a: Dict, b: Dict)
    requires PortCopy(a, b)
    ensures GetOr(a, TimeoutSeconds, Int(5)) == GetOr(b, TimeoutSeconds, Int(5))
  {
  }

  lemma KindPresent(fields: Dict)
    ensures IsConnectorType(Get(fields, Type)) ==> Type in fields && fields[Type := Get(fields, Type)] == fields
  {
  }

  lemma SameAcceptance(a: Dict, b: Dict, c: Dict, d: Dict, demo: bool, lib: Library)
    requires CopyOf(a, b) && CopyOf(c, d)
    ensures CompletionAcceptable(a, c, demo, lib) <==> CompletionAcceptable(b, d, demo, lib)
  {
    hide Bounded, LoopbackHost;
    SameLogin(a, b, true, Get(a, Protocol) != Text("telnet"));
    SameLogin(c, d, StartsSsh(Get(c, Type)), StartsSsh(Get(c, Type)));
    SameLoopback(a, b, lib);
    SameLoopback(c, d, lib);
    hide LoginAccepted, Loopback, StartsSsh;
  }

  lemma SameLogin(a: Dict, b: Dict, required: bool, ssh: bool)
    requires CopyOf(a, b)
    ensures LoginAccepted(a, required, ssh) <==> LoginAccepted(b, required, ssh)
  {
    hide Bounded, Truthy;
  }

  lemma SameLoopback(a: Dict, b: Dict, lib: Library)
    requires CopyOf(a, b)
    ensures Loopback(a, lib) <==> Loopback(b, lib)
  {
    hide LoopbackHost, Truthy;
  }

  lemma DialledExactly(d: Dict, lib: Library)
    ensures Dialled(d, lib).Success? && DemoFilesAllowed(Dialled(d, lib).value, lib) <==> Loopback(d, lib)
    ensures Dialled(d, lib).Success? ==> HostCopy(Dialled(d, lib).value, d) && DialsOwnHost(Dialled(d, lib).value, d, true, lib)
    ensures Dialled(d, lib) != Failure(Crash)
  {
    LoopbackFault(if Get(d, Host).Text? then Get(d, Host).text else "", lib);
    LoopbackForm(d, lib);
    hide LoopbackHost, Truthy, LocalHost, DialsOwnHost;
  }

  lemma LoopbackForm(d: Dict, lib: Library)
    ensures Dialled(d, lib).Success? ==> DialsOwnHost(Dialled(d, lib).value, d, true, lib)
  {
    hide LocalHost;
  }

  lemma LoopbackFault(s: string, lib: Library)
    ensures LoopbackHost(s, lib).Failure? ==> LoopbackHost(s, lib).error == DemoPolicy
  {
  }

  lemma CompletedExactly(v: Valid, demo: bool, lib: Library)
    ensures Completed(v, demo, lib).Success? <==> CompletionAcceptable(v.device, v.connector, demo, lib)
    ensures Completed(v, demo, lib).Success? ==>
              var w := Completed(v, demo, lib).value;
              && HostCopy(w.device, v.device) && HostCopy(w.connector, v.connector) && w.seconds == v.seconds
              && DialsOwnHost(w.device, v.device, demo, lib) && DialsProxy(w.connector, v.connector, demo, lib)
  {
    NetworkedExactly(v.device, v.connector, demo, lib);
    hide LoginFault, LoopbackHost, Networked, LoginsAccepted, StartsSsh, Loopback, CopyOf;
    var both := Networked(v.device, v.connector, demo, lib);
    if both.Success? {
      HostCopyIsCopy(both.value.0, v.device);
      HostCopyIsCopy(both.value.1, v.connector);
      LoginsExactly(both.value.0, both.value.1);
      SameLogins(both.value.0, v.device, both.value.1, v.connector);
      hide LoginsFault;
    }
  }

  lemma LoginsExactly(device: Dict, connector: Dict)
    ensures LoginsFault(device, connector).None? <==> LoginsAccepted(device, connector)
  {
    hide LoginFault, LoginAccepted, StartsSsh, LoginMethod, Hashable;
    var kind := Get(connector, Type);
    LoginExactly(device, true, Get(device, Protocol) != Text("telnet"));
    LoginExactly(connector, StartsSsh(kind), StartsSsh(kind));
    DirectIsNotHttp();
  }

  lemma DirectIsNotHttp()
    ensures DIRECT != Text("http_connect")
  {
    assert "direct"[0] == 'd' && "http_connect"[0] == 'h';
  }

  lemma SameLogins(a: Dict, b: Dict, c: Dict, d: Dict)
    requires CopyOf(a, b) && CopyOf(c, d)
    ensures LoginsAccepted(a, c) <==> LoginsAccepted(b, d)
  {
    SameLogin(a, b, true, Get(a, Protocol) != Text("telnet"));
    SameLogin(c, d, StartsSsh(Get(c, Type)), StartsSsh(Get(c, Type)));
    hide LoginAccepted, StartsSsh;
  }

  lemma NetworkedExactly(device: Dict, connector: Dict, demo: bool, lib: Library)
    ensures Networked(device, connector, demo, lib).Success? <==>
              (demo ==> Loopback(device, lib) && (Get(connector, Type) != DIRECT ==> Loopback(connector, lib)))
    ensures Networked(device, connector, demo, lib) != Failure(Crash)
    ensures Networked(device, connector, demo, lib).Success? ==>
              var both := Networked(device, connector, demo, lib).value;
              && HostCopy(both.0, device) && HostCopy(both.1, connector)
              && DialsOwnHost(both.0, device, demo, lib) && DialsProxy(both.1, connector, demo, lib)
  {
    DialledExactly(device, lib);
    DialledExactly(connector, lib);
    hide LoopbackHost, DemoFilesAllowed, Loopback, LocalHost;
  }

  /** A direct connector of a demo connection has no address to dial. */
  predicate DialsProxy(copy: Dict, c: Dict, demo: bool, lib: Library) {
    if demo && Get(c, Type) == DIRECT then Get(copy, NETWORK_HOST) == Get(c, NETWORK_HOST) else DialsOwnHost(copy, c, demo, lib)
  }

  lemma HostCopyIsCopy(a: Dict, b: Dict)
    requires HostCopy(a, b)
    ensures CopyOf(a, b) && Get(a, Port) == Get(b, Port) && Get(a, Host) == Get(b, Host)
  {
  }

  /** Filling in two stages, ports first and addresses after, fills the copies of the original dictionaries. */
  lemma TwoStages(w: Valid, v: Valid, profile: Value, demo: bool, lib: Library)
    requires profile.Object? && Raw(profile.fields).Object? && Get(v.device, Host).Text? && w.seconds == v.seconds
    requires ReadSeconds(GetOr(profile.fields, TimeoutSeconds, Int(5)), lib) == Some(v.seconds)
    requires PortCopy(v.device, profile.fields) && PortCopy(v.connector, Raw(profile.fields).fields)
    requires PortsFilled(v, profile.fields, Raw(profile.fields).fields, lib)
    requires HostCopy(w.device, v.device) && HostCopy(w.connector, v.connector)
    requires DialsOwnHost(w.device, v.device, demo, lib) && DialsProxy(w.connector, v.connector, demo, lib)
    ensures Filled(w, profile, demo, lib)
  {
    hide ReadSeconds, LocalHost, GivenPort, Raw, PortNumber;
  }

  /** Validation accepts exactly the acceptable profiles and hands on filled copies of both dictionaries. */
  lemma ValidatedExactly(profile: Value, demo: bool, lib: Library)
    ensures Validated(profile, demo, lib).Success? <==> Acceptable(profile, demo, lib)
    ensures Validated(profile, demo, lib).Success? ==> Filled(Validated(profile, demo, lib).value, profile, demo, lib)
  {
    EndpointsExactly(profile, lib);
    hide Endpoints, Completed, EndpointsAcceptable, CompletionAcceptable, LoopbackHost, Filled, HostCopy, PortCopy, CopyOf,
      PortsFilled, DialsOwnHost, DialsProxy, ReadSeconds, Raw;
    var first := Endpoints(profile, lib);
    if first.Success? {
      EndpointsRaw(profile, lib);
      CompletedExactly(first.value, demo, lib);
      PortCopyIsCopy(first.value.device, profile.fields);
      PortCopyIsCopy(first.value.connector, Raw(profile.fields).fields);
      SameAcceptance(first.value.device, profile.fields, first.value.connector, Raw(profile.fields).fields, demo, lib);
      if Validated(profile, demo, lib).Success? {
        TwoStages(Validated(profile, demo, lib).value, first.value, profile, demo, lib);
      }
    }
  }

  lemma EndpointsRaw(profile: Value, lib: Library)
    requires EndpointsAcceptable(profile, lib)
    ensures profile.Object? && Raw(profile.fields).Object?
  {
  }

  // ---------------------------------------------------------------------------
  // The same checks as the code makes them, filling copies of both dictionaries.

  method CheckAuthFields(auth: Dict, required: bool, ssh: bool) returns (fault: Option<Fault>)
    ensures fault == LoginFault(auth, required, ssh)
    ensures fault.None? <==> LoginAccepted(auth, required, ssh)
  {
    LoginExactly(auth, required, ssh);
    hide MethodFault, Bounded, LoginAccepted;
    if required && !NamedText(Get(auth, Username)) {
      return Some(Validation);
    }
    var fields := [Username, Password, KeyPassphrase];
    var i := 0;
    while i < |fields|
      invariant 0 <= i <= |fields|
      invariant forall j | 0 <= j < i :: Bounded(Get(auth, fields[j]))
    {
      if !Bounded(Get(auth, fields[i])) {
        return Some(Validation);
      }
      i := i + 1;
    }
    assert Bounded(Get(auth, fields[0])) && Bounded(Get(auth, fields[1])) && Bounded(Get(auth, fields[2]));
    return MethodFault(auth, required, ssh);
  }

  method ReadEndpoints(profile: Value, lib: Library) returns (r: Result<Valid, Fault>)
    ensures r == Endpoints(profile, lib)
    ensures r.Success? <==> EndpointsAcceptable(profile, lib)
  {
    EndpointsExactly(profile, lib);
    hide EndpointsAcceptable;
    hide KindFault, CheckedHost, CheckedPort, CheckedSeconds;
    if !profile.Object? {
      return Failure(Validation);
    }
    var device := profile.fields;
    var raw := GetOr(device, Connector, Object(map[Type := DIRECT]));
    var unsuitable := KindFault(device, raw);
    if unsuitable.Some? {
      return Failure(unsuitable.value);
    }
    KindIsObject(device, raw);
    var connector := raw.fields;
    var protocol, kind := Get(device, Protocol), Get(connector, Type);
    var host :- CheckedHost(Get(device, Host), lib);
    device := device[Host := Text(host)];
    var port :- CheckedPort(GetOr(device, Port, DefaultPort(protocol)), lib);
    device := device[Port := Int(port)];
    connector := connector[Type := kind];
    if kind != DIRECT {
      var proxyHost :- CheckedHost(Get(connector, Host), lib);
      connector := connector[Host := Text(proxyHost)];
      var proxyPort :- CheckedPort(Get(connector, Port), lib);
      connector := connector[Port := Int(proxyPort)];
    }
    var seconds :- CheckedSeconds(GetOr(device, TimeoutSeconds, Int(5)), lib);
    return Success(Valid(device, connector, seconds));
  }

  method Complete(v: Valid, demo: bool, lib: Library) returns (r: Result<Valid, Fault>)
    ensures r == Completed(v, demo, lib)
    ensures r.Success? <==> CompletionAcceptable(v.device, v.connector, demo, lib)
  {
    CompletedExactly(v, demo, lib);
    hide CompletionAcceptable, CopyOf;
    hide LoginFault, LoopbackHost, DemoFilesAllowed;
    var device, connector := v.device, v.connector;
    var kind := Get(connector, Type);
    if demo {
      device :- Dialled(device, lib);
      if kind != DIRECT {
        connector :- Dialled(connector, lib);
      }
      if !DemoFilesAllowed(device, lib) || (kind != DIRECT && !DemoFilesAllowed(connector, lib)) {
        return Failure(DemoPolicy);
      }
    } else {
      device := device[NETWORK_HOST := Get(device, Host)];
      connector := connector[NETWORK_HOST := Get(connector, Host)];
    }
    var fault := CheckAuthFields(device, true, Get(device, Protocol) != Text("telnet"));
    if fault.Some? {
      return Failure(fault.value);
    }
    if kind != DIRECT {
      fault := CheckAuthFields(connector, StartsSsh(kind), StartsSsh(kind));
      if fault.Some? {
        return Failure(fault.value);
      }
      if kind == Text("http_connect") && Get(connector, Username).Text? && ':' in Get(connector, Username).text {
        return Failure(Validation);
      }
    }
    return Success(Valid(device, connector, v.seconds));
  }

  method ValidateProfile(profile: Value, demo: bool, lib: Library) returns (r: Result<Valid, Fault>)
    ensures r == Validated(profile, demo, lib)
    ensures r.Success? <==> Acceptable(profile, demo, lib)
    ensures r.Success? ==> Filled(r.value, profile, demo, lib)
  {
    ValidatedExactly(profile, demo, lib);
    hide Endpoints, Completed, Acceptable, Filled;
    var v :- ReadEndpoints(profile, lib);
    r := Complete(v, demo, lib);
  }

  lemma KindIsObject(device: Dict, raw: Value)
    requires KindFault(device, raw).None?
    ensures raw.Object?
  {
  }
}
