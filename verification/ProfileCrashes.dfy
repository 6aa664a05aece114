/** Exactly which profiles make validation raise something other than its own error. */
module ProfileCrashes {
  import opened Wrappers
  import opened Profiles
  import opened ProfileValidation
  import opened ProfileAcceptance

  /** A list or dictionary where a protocol or a connector type belongs: looking it up in a table fails. */
  predicate KindCrashes(d: Dict, raw: Value) {
    || !Hashable(Get(d, Protocol))
    || (&& IsProtocol(Get(d, Protocol)) && (Truthy(Get(d, ProxyId)) ==> Connector in d)
        && raw.Object? && !Hashable(Get(raw.fields, Type)))
  }

  /** Kinds, hosts and ports are fine, and float() of an integer time limit overflows. */
  predicate SecondsCrash(d: Dict, raw: Value, lib: Library) {
    && KindsFit(d, raw) && Reachable(d, GetOr(d, Port, DefaultPort(Get(d, Protocol))), lib)
    && (Get(raw.fields, Type) != DIRECT ==> Reachable(raw.fields, Get(raw.fields, Port), lib))
    && var seconds := GetOr(d, TimeoutSeconds, Int(5)); seconds.Int? && !FitsFloat(seconds.whole)
  }

  /** The login's texts are fine, and its method is a list or dictionary. */
  predicate LoginCrashes(auth: Dict, required: bool) {
    && (required ==> NamedText(Get(auth, Username)))
    && Bounded(Get(auth, Username)) && Bounded(Get(auth, Password)) && Bounded(Get(auth, KeyPassphrase))
    && !Hashable(LoginMethod(auth))
  }

  /** The device's login comes first; a direct connector has none to look at. */
  predicate LoginsCrash(device: Dict, connector: Dict) {
    var kind := Get(connector, Type);
    || LoginCrashes(device, true)
    || (&& LoginAccepted(device, true, Get(device, Protocol) != Text("telnet"))
        && kind != DIRECT && LoginCrashes(connector, StartsSsh(kind)))
  }

  predicate Crashes(profile: Value, demo: bool, lib: Library) {
    profile.Object? &&
    var d, raw := profile.fields, Raw(profile.fields);
    || KindCrashes(d, raw)
    || SecondsCrash(d, raw, lib)
    || (EndpointsAcceptable(profile, lib) && NetworkAcceptable(d, raw.fields, demo, lib) && LoginsCrash(d, raw.fields))
  }

  predicate NetworkAcceptable(device: Dict, connector: Dict, demo: bool, lib: Library) {
    demo ==> Loopback(device, lib) && (Get(connector, Type) != DIRECT ==> Loopback(connector, lib))
  }

  // ---------------------------------------------------------------------------
  // Stage by stage.

  lemma KindCrashesExactly(d: Dict, raw: Value)
    ensures KindFault(d, raw) == Some(Crash) <==> KindCrashes(d, raw)
  {
    hide Truthy;
    ProtocolsHash(Get(d, Protocol));
  }

  lemma ProtocolsHash(v: Value)
    ensures IsProtocol(v) ==> Hashable(v)
  {
  }

  lemma EndpointsCrashExactly(profile: Value, lib: Library)
    ensures Endpoints(profile, lib) == Failure(Crash) <==>
              profile.Object?
              && (KindCrashes(profile.fields, Raw(profile.fields)) || SecondsCrash(profile.fields, Raw(profile.fields), lib))
  {
    hide KindFault, Truthy, KindsFit, Raw, KindCrashes, SecondsCrash;
    if profile.Object? {
      var d, raw := profile.fields, Raw(profile.fields);
      KindsExactly(d, raw);
      KindCrashesExactly(d, raw);
      if KindsFit(d, raw) {
        KindsObject(d, raw);
        FittingCrash(profile, lib);
      } else {
        UnfitHasNoSeconds(d, raw, lib);
      }
    }
  }

  lemma UnfitHasNoSeconds(d: Dict, raw: Value, lib: Library)
    requires !KindsFit(d, raw)
    ensures !SecondsCrash(d, raw, lib)
  {
    hide KindsFit, Reachable;
  }

  lemma FittingCrash(profile: Value, lib: Library)
    requires profile.Object? && KindsFit(profile.fields, Raw(profile.fields))
    requires Raw(profile.fields).Object? && IsConnectorType(Get(Raw(profile.fields).fields, Type))
    requires KindFault(profile.fields, Raw(profile.fields)).None?
    ensures Endpoints(profile, lib) == Failure(Crash) <==> SecondsCrash(profile.fields, Raw(profile.fields), lib)
  {
    hide Endpoints, KindFault, CheckedSeconds, KindsFit, IsConnectorType, Raw, PortCopy, Get, GetOr, DeviceCopy, ConnectorCopy,
      FitsFloat, Reachable;
    var d, fields := profile.fields, Raw(profile.fields).fields;
    EndpointsInOrder(profile, lib);
    DeviceExactly(d, lib);
    ConnectorExactly(fields, lib);
    CopiesNeverCrash(d, fields, lib);
    SecondsExactly(GetOr(d, TimeoutSeconds, Int(5)), lib);
  }

  lemma CopiesNeverCrash(d: Dict, fields: Dict, lib: Library)
    ensures DeviceCopy(d, lib) != Failure(Crash) && ConnectorCopy(fields, lib) != Failure(Crash)
  {
    hide WithEndpoint, DefaultPort;
    EndpointExactly(d, GetOr(d, Port, DefaultPort(Get(d, Protocol))), lib);
    EndpointExactly(fields, Get(fields, Port), lib);
  }

  lemma LoginCrashExactly(auth: Dict, required: bool, ssh: bool)
    ensures LoginFault(auth, required, ssh) == Some(Crash) <==> LoginCrashes(auth, required)
  {
    hide Bounded, LoginMethod, Hashable, Truthy, NamedText;
  }

  lemma LoginsCrashExactly(device: Dict, connector: Dict)
    ensures LoginsFault(device, connector) == Some(Crash) <==> LoginsCrash(device, connector)
  {
    hide LoginFault, LoginAccepted, StartsSsh, LoginCrashes;
    var kind := Get(connector, Type);
    LoginExactly(device, true, Get(device, Protocol) != Text("telnet"));
    LoginCrashExactly(device, true, Get(device, Protocol) != Text("telnet"));
    LoginExactly(connector, StartsSsh(kind), StartsSsh(kind));
    LoginCrashExactly(connector, StartsSsh(kind), StartsSsh(kind));
    Exclusive(device, true, Get(device, Protocol) != Text("telnet"));
  }

  lemma Exclusive(auth: Dict, required: bool, ssh: bool)
    ensures !(LoginAccepted(auth, required, ssh) && LoginCrashes(auth, required))
  {
    hide LoginFault, LoginAccepted, LoginCrashes;
    LoginExactly(auth, required, ssh);
    LoginCrashExactly(auth, required, ssh);
  }

  lemma CompletedCrashExactly(v: Valid, demo: bool, lib: Library)
    ensures Completed(v, demo, lib) == Failure(Crash) <==>
              NetworkAcceptable(v.device, v.connector, demo, lib) && LoginsCrash(v.device, v.connector)
  {
    NetworkedExactly(v.device, v.connector, demo, lib);
    hide LoginsFault, LoopbackHost, Networked, LoginsCrash, Loopback, CopyOf, HostCopy, DialsOwnHost, DialsProxy;
    var both := Networked(v.device, v.connector, demo, lib);
    if both.Success? {
      LoginsCrashExactly(both.value.0, both.value.1);
      HostCopyIsCopy(both.value.0, v.device);
      HostCopyIsCopy(both.value.1, v.connector);
      SameLoginsCrash(both.value.0, v.device, both.value.1, v.connector);
    }
  }

  lemma SameLoginCrash(a: Dict, b: Dict, required: bool)
    requires CopyOf(a, b)
    ensures LoginCrashes(a, required) <==> LoginCrashes(b, required)
  {
    hide Bounded, Truthy, Hashable;
  }

  lemma SameLoginsCrash(a: Dict, b: Dict, c: Dict, d: Dict)
    requires CopyOf(a, b) && CopyOf(c, d)
    ensures LoginsCrash(a, c) <==> LoginsCrash(b, d)
  {
    SameLogin(a, b, true, Get(a, Protocol) != Text("telnet"));
    SameLoginCrash(a, b, true);
    SameLoginCrash(c, d, StartsSsh(Get(c, Type)));
    hide LoginAccepted, LoginCrashes, StartsSsh;
  }

  lemma SameNetwork(a: Dict, b: Dict, c: Dict, d: Dict, demo: bool, lib: Library)
    requires CopyOf(a, b) && CopyOf(c, d)
    ensures NetworkAcceptable(a, c, demo, lib) <==> NetworkAcceptable(b, d, demo, lib)
  {
    SameLoopback(a, b, lib);
    SameLoopback(c, d, lib);
    hide Loopback;
  }

  // ---------------------------------------------------------------------------
  // Main result, and inputs of three kinds.

  /** Validation raises something other than a connector's own error exactly on these profiles. */
  lemma CrashesExactly(profile: Value, demo: bool, lib: Library)
    ensures Validated(profile, demo, lib) == Failure(Crash) <==> Crashes(profile, demo, lib)
  {
    hide Endpoints, Completed, KindCrashes, SecondsCrash, EndpointsAcceptable, NetworkAcceptable, LoginsCrash, PortCopy, CopyOf, Raw;
    EndpointsExactly(profile, lib);
    EndpointsCrashExactly(profile, lib);
    var first := Endpoints(profile, lib);
    if first.Success? {
      AcceptableRaw(profile, lib);
      var v, d, c := first.value, profile.fields, Raw(profile.fields).fields;
      CompletedCrashExactly(v, demo, lib);
      PortCopyIsCopy(v.device, d);
      PortCopyIsCopy(v.connector, c);
      SameNetwork(v.device, d, v.connector, c, demo, lib);
      SameLoginsCrash(v.device, d, v.connector, c);
    }
  }

  lemma AcceptableRaw(profile: Value, lib: Library)
    requires EndpointsAcceptable(profile, lib)
    ensures profile.Object? && Raw(profile.fields).Object?
  {
    EndpointsRaw(profile, lib);
  }

  lemma UnhashableProtocolCrashes(demo: bool, lib: Library)
    ensures Validated(Object(map[Protocol := Value.Other(true)]), demo, lib) == Failure(Crash)
  {
    hide Validated;
    CrashesExactly(Object(map[Protocol := Value.Other(true)]), demo, lib);
  }

  /** A direct SSH device on this machine. */
  function LocalDevice(extra: Dict): Value {
    Object(map[Protocol := Text("ssh"), Host := Text("localhost"), Username := Text("u"), Password := Text("p")] + extra)
  }

  lemma LocalhostAccepted(lib: Library)
    ensures AcceptedHost("localhost", lib)
  {
    assert "localhost"[0] == 'l' && "localhost"[8] == 't';
  }

  lemma HugeLimitOverflows()
    ensures !FitsFloat(Power2(1024))
  {
    hide Power2;
  }

  lemma LocalEndpoint(extra: Dict, lib: Library)
    requires forall k | k in extra :: k.TimeoutSeconds? || k.AuthenticationType?
    ensures var d := LocalDevice(extra).fields;
            Raw(d) == Object(map[Type := DIRECT]) && KindsFit(d, Raw(d)) && Reachable(d, GetOr(d, Port, DefaultPort(Get(d, Protocol))), lib)
  {
    hide AcceptedHost;
    LocalhostAccepted(lib);
  }

  lemma HugeLimitCrashes(demo: bool, lib: Library)
    ensures Validated(LocalDevice(map[TimeoutSeconds := Int(Power2(1024))]), demo, lib) == Failure(Crash)
  {
    hide Validated, Reachable, KindsFit, FitsFloat, Power2, Raw, DefaultPort;
    var profile := LocalDevice(map[TimeoutSeconds := Int(Power2(1024))]);
    LocalEndpoint(map[TimeoutSeconds := Int(Power2(1024))], lib);
    HugeLimitOverflows();
    assert GetOr(profile.fields, TimeoutSeconds, Int(5)) == Int(Power2(1024));
    assert SecondsCrash(profile.fields, Raw(profile.fields), lib);
    CrashesExactly(profile, demo, lib);
  }

  lemma UnhashableMethodCrashes(lib: Library)
    ensures Validated(LocalDevice(map[AuthenticationType := Value.Other(true)]), false, lib) == Failure(Crash)
  {
    hide Validated, Reachable, KindsFit, Raw, DefaultPort;
    var profile := LocalDevice(map[AuthenticationType := Value.Other(true)]);
    LocalEndpoint(map[AuthenticationType := Value.Other(true)], lib);
    assert GetOr(profile.fields, TimeoutSeconds, Int(5)) == Int(5);
    assert EndpointsAcceptable(profile, lib);
    assert LoginCrashes(profile.fields, true);
    CrashesExactly(profile, false, lib);
  }
}
