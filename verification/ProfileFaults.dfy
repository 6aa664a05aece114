/** The error of every rejected profile: which check speaks, stated over the profile. */
module ProfileFaults {
  import opened Wrappers
  import opened Profiles
  import opened ProfileValidation
  import opened ProfileAcceptance
  import opened ProfileCrashes

  /** An unknown protocol or connector type, or a shell tunnel for something other than Telnet. */
  predicate KindUnsupported(d: Dict, raw: Value) {
    var protocol, proxied := Get(d, Protocol), Truthy(Get(d, ProxyId));
    Hashable(protocol) &&
    (|| !IsProtocol(protocol)
     || (&& (proxied ==> Connector in d) && raw.Object? && Hashable(Get(raw.fields, Type))
         && var kind := Get(raw.fields, Type);
            || !IsConnectorType(kind)
            || (kind == Text("ssh_shell") && protocol != Text("telnet"))))
  }

  /** The login's texts are fine, and its method is unknown or a key where no SSH is spoken. */
  predicate LoginUnsupported(auth: Dict, required: bool, ssh: bool) {
    && (required ==> NamedText(Get(auth, Username)))
    && Bounded(Get(auth, Username)) && Bounded(Get(auth, Password)) && Bounded(Get(auth, KeyPassphrase))
    && Hashable(LoginMethod(auth))
    && (|| (LoginMethod(auth) != PASSWORD && LoginMethod(auth) != SSH_KEY)
        || (!ssh && (LoginMethod(auth) == SSH_KEY || HasKey(auth))))
  }

  predicate LoginsUnsupported(device: Dict, connector: Dict) {
    var kind, ssh := Get(connector, Type), Get(device, Protocol) != Text("telnet");
    || LoginUnsupported(device, true, ssh)
    || (&& LoginAccepted(device, true, ssh)
        && kind != DIRECT && LoginUnsupported(connector, StartsSsh(kind), StartsSsh(kind)))
  }

  predicate Unsupported(profile: Value, demo: bool, lib: Library) {
    profile.Object? &&
    var d, raw := profile.fields, Raw(profile.fields);
    || KindUnsupported(d, raw)
    || (EndpointsAcceptable(profile, lib) && NetworkAcceptable(d, raw.fields, demo, lib) && LoginsUnsupported(d, raw.fields))
  }

  /** Everything up to the addresses is fine, and demo mode does not allow one of them or a file. */
  predicate OutsideDemo(profile: Value, demo: bool, lib: Library) {
    && EndpointsAcceptable(profile, lib)
    && profile.Object? && Raw(profile.fields).Object? && !NetworkAcceptable(profile.fields, Raw(profile.fields).fields, demo, lib)
  }

  // ---------------------------------------------------------------------------
  // Stage by stage.

  lemma ShellIsNotDirect()
    ensures DIRECT != Text("ssh_shell")
  {
    assert "direct"[0] == 'd' && "ssh_shell"[0] == 's';
  }

  lemma KindUnsupportedExactly(d: Dict, raw: Value)
    ensures KindFault(d, raw) == Some(UnsupportedKind) <==> KindUnsupported(d, raw)
    ensures KindFault(d, raw) != Some(DemoPolicy)
  {
    ShellIsNotDirect();
    ProtocolsHash(Get(d, Protocol));
    hide Truthy, IsProxyType, IsProtocol;
  }

  lemma LoginUnsupportedExactly(auth: Dict, required: bool, ssh: bool)
    ensures LoginFault(auth, required, ssh) == Some(UnsupportedKind) <==> LoginUnsupported(auth, required, ssh)
    ensures LoginFault(auth, required, ssh) != Some(DemoPolicy)
  {
    hide Bounded, LoginMethod, Hashable, Truthy, NamedText;
  }

  lemma EndpointsUnsupportedExactly(profile: Value, lib: Library)
    ensures Endpoints(profile, lib) == Failure(UnsupportedKind) <==>
              profile.Object? && KindUnsupported(profile.fields, Raw(profile.fields))
    ensures Endpoints(profile, lib) != Failure(DemoPolicy)
  {
    hide KindFault, Truthy, KindsFit, Raw, KindUnsupported;
    if profile.Object? {
      var d, raw := profile.fields, Raw(profile.fields);
      KindsExactly(d, raw);
      KindUnsupportedExactly(d, raw);
      if KindsFit(d, raw) {
        KindsObject(d, raw);
        FittingFaults(profile, lib);
      }
    }
  }

  lemma FittingFaults(profile: Value, lib: Library)
    requires profile.Object? && KindsFit(profile.fields, Raw(profile.fields))
    requires Raw(profile.fields).Object? && IsConnectorType(Get(Raw(profile.fields).fields, Type))
    requires KindFault(profile.fields, Raw(profile.fields)).None?
    ensures Endpoints(profile, lib) != Failure(UnsupportedKind) && Endpoints(profile, lib) != Failure(DemoPolicy)
  {
    hide Endpoints, KindFault, CheckedSeconds, KindsFit, IsConnectorType, Raw, Get, GetOr, DeviceCopy, ConnectorCopy;
    var d, fields := profile.fields, Raw(profile.fields).fields;
    EndpointsInOrder(profile, lib);
    CopyFaults(d, fields, lib);
    SecondsFaults(GetOr(d, TimeoutSeconds, Int(5)), lib);
  }

  lemma CopyFaults(d: Dict, fields: Dict, lib: Library)
    ensures DeviceCopy(d, lib).Failure? ==> DeviceCopy(d, lib).error == Validation
    ensures ConnectorCopy(fields, lib).Failure? ==> ConnectorCopy(fields, lib).error == Validation
  {
    hide AcceptedHost, DefaultPort;
  }

  lemma SecondsFaults(v: Value, lib: Library)
    ensures CheckedSeconds(v, lib) != Failure(UnsupportedKind) && CheckedSeconds(v, lib) != Failure(DemoPolicy)
  {
    hide FitsFloat;
  }

  lemma LoginsUnsupportedExactly(device: Dict, connector: Dict)
    ensures LoginsFault(device, connector) == Some(UnsupportedKind) <==> LoginsUnsupported(device, connector)
    ensures LoginsFault(device, connector) != Some(DemoPolicy)
  {
    hide LoginFault, LoginAccepted, StartsSsh, LoginUnsupported;
    var kind := Get(connector, Type);
    LoginExactly(device, true, Get(device, Protocol) != Text("telnet"));
    LoginUnsupportedExactly(device, true, Get(device, Protocol) != Text("telnet"));
    LoginExactly(connector, StartsSsh(kind), StartsSsh(kind));
    LoginUnsupportedExactly(connector, StartsSsh(kind), StartsSsh(kind));
  }

  lemma SameLoginsUnsupported(a: Dict, b: Dict, c: Dict, d: Dict)
    requires CopyOf(a, b) && CopyOf(c, d)
    ensures LoginsUnsupported(a, c) <==> LoginsUnsupported(b, d)
  {
    SameLogin(a, b, true, Get(a, Protocol) != Text("telnet"));
    SameLoginUnsupported(a, b, true, Get(a, Protocol) != Text("telnet"));
    SameLoginUnsupported(c, d, StartsSsh(Get(c, Type)), StartsSsh(Get(c, Type)));
    hide LoginAccepted, LoginUnsupported, StartsSsh;
  }

  lemma SameLoginUnsupported(a: Dict, b: Dict, required: bool, ssh: bool)
    requires CopyOf(a, b)
    ensures LoginUnsupported(a, required, ssh) <==> LoginUnsupported(b, required, ssh)
  {
    hide Bounded, Truthy, Hashable;
  }

  lemma CompletedFaults(v: Valid, demo: bool, lib: Library)
    requires Get(v.device, Host).Text? && (Get(v.connector, Type) != DIRECT ==> Get(v.connector, Host).Text?)
    ensures Completed(v, demo, lib) == Failure(UnsupportedKind) <==>
              NetworkAcceptable(v.device, v.connector, demo, lib) && LoginsUnsupported(v.device, v.connector)
    ensures Completed(v, demo, lib) == Failure(DemoPolicy) <==> !NetworkAcceptable(v.device, v.connector, demo, lib)
  {
    NetworkedExactly(v.device, v.connector, demo, lib);
    NetworkedFault(v.device, v.connector, demo, lib);
    hide LoginsFault, LoopbackHost, Networked, LoginsUnsupported, Loopback, CopyOf, HostCopy, DialsOwnHost, DialsProxy;
    var both := Networked(v.device, v.connector, demo, lib);
    if both.Success? {
      HostCopyIsCopy(both.value.0, v.device);
      HostCopyIsCopy(both.value.1, v.connector);
      LoginsUnsupportedExactly(both.value.0, both.value.1);
      SameLoginsUnsupported(both.value.0, v.device, both.value.1, v.connector);
    }
  }

  lemma NetworkedFault(device: Dict, connector: Dict, demo: bool, lib: Library)
    requires Get(device, Host).Text? && (Get(connector, Type) != DIRECT ==> Get(connector, Host).Text?)
    ensures Networked(device, connector, demo, lib).Failure? ==> Networked(device, connector, demo, lib).error == DemoPolicy
  {
    DialledFault(device, lib);
    if Get(connector, Host).Text? {
      DialledFault(connector, lib);
    }
    hide Dialled, DemoFilesAllowed;
  }

  lemma DialledFault(d: Dict, lib: Library)
    requires Get(d, Host).Text?
    ensures Dialled(d, lib).Failure? ==> Dialled(d, lib).error == DemoPolicy
  {
    LoopbackFault(Get(d, Host).text, lib);
    hide LoopbackHost;
  }

  /** Hosts of a reachable endpoint are texts. */
  lemma HostsAreTexts(profile: Value, lib: Library)
    requires EndpointsAcceptable(profile, lib) && Raw(profile.fields).Object?
    ensures Get(profile.fields, Host).Text?
    ensures Get(Raw(profile.fields).fields, Type) != DIRECT ==> Get(Raw(profile.fields).fields, Host).Text?
  {
    hide KindsFit, AcceptedHost, CheckedPort, ReadSeconds;
  }

  // ---------------------------------------------------------------------------
  // Main result.

  /** Each error is raised exactly when its own check is the first to fail; every other rejection is a validation error. */
  lemma FaultsExactly(profile: Value, demo: bool, lib: Library)
    ensures Validated(profile, demo, lib) == Failure(UnsupportedKind) <==> Unsupported(profile, demo, lib)
    ensures Validated(profile, demo, lib) == Failure(DemoPolicy) <==> OutsideDemo(profile, demo, lib)
    ensures Validated(profile, demo, lib) == Failure(Validation) <==>
              && !Acceptable(profile, demo, lib) && !Crashes(profile, demo, lib)
              && !Unsupported(profile, demo, lib) && !OutsideDemo(profile, demo, lib)
  {
    ValidatedExactly(profile, demo, lib);
    CrashesExactly(profile, demo, lib);
    EndpointsExactly(profile, lib);
    EndpointsUnsupportedExactly(profile, lib);
    hide Endpoints, Completed, KindUnsupported, EndpointsAcceptable, NetworkAcceptable, LoginsUnsupported, Raw, Acceptable, Crashes, Filled,
      PortCopy, CopyOf, PortsFilled;
    var first := Endpoints(profile, lib);
    if first.Success? {
      AcceptableRaw(profile, lib);
      LaterFaults(first.value, profile, demo, lib);
    }
    KindsDecide(profile, lib);
    OneOutcome(Validated(profile, demo, lib));
  }

  lemma OneOutcome(r: Result<Valid, Fault>)
    ensures r.Success? || r == Failure(Validation) || r == Failure(UnsupportedKind) || r == Failure(DemoPolicy) || r == Failure(Crash)
  {
    match r
    case Success(_) =>
    case Failure(e) =>
      assert r == Failure(e) && (e.Validation? || e.UnsupportedKind? || e.DemoPolicy? || e.Crash?);
  }

  lemma KindsDecide(profile: Value, lib: Library)
    ensures EndpointsAcceptable(profile, lib) ==> profile.Object? && !KindUnsupported(profile.fields, Raw(profile.fields))
  {
    if EndpointsAcceptable(profile, lib) {
      KindsExactly(profile.fields, Raw(profile.fields));
      KindUnsupportedExactly(profile.fields, Raw(profile.fields));
      hide KindFault, KindUnsupported, KindsFit, Raw;
    }
  }

  lemma LaterFaults(v: Valid, profile: Value, demo: bool, lib: Library)
    requires profile.Object? && Raw(profile.fields).Object? && EndpointsAcceptable(profile, lib)
    requires PortCopy(v.device, profile.fields) && PortCopy(v.connector, Raw(profile.fields).fields)
    ensures var d, c := profile.fields, Raw(profile.fields).fields;
            && (Completed(v, demo, lib) == Failure(UnsupportedKind) <==> NetworkAcceptable(d, c, demo, lib) && LoginsUnsupported(d, c))
            && (Completed(v, demo, lib) == Failure(DemoPolicy) <==> !NetworkAcceptable(d, c, demo, lib))
  {
    var d, c := profile.fields, Raw(profile.fields).fields;
    HostsAreTexts(profile, lib);
    SameHost(v.device, d);
    SameHost(v.connector, c);
    PortCopyIsCopy(v.device, d);
    PortCopyIsCopy(v.connector, c);
    hide Completed, EndpointsAcceptable, NetworkAcceptable, LoginsUnsupported, Raw, PortCopy, CopyOf;
    CompletedFaults(v, demo, lib);
    SameNetwork(v.device, d, v.connector, c, demo, lib);
    SameLoginsUnsupported(v.device, d, v.connector, c);
  }

  lemma SameHost(a: Dict, b: Dict)
    requires PortCopy(a, b)
    ensures Get(a, Host) == Get(b, Host) && Get(a, Type) == Get(b, Type)
  {
  }
}
