/**
 The three views of a task's port mappings that are computed separately: the
 ports the container exposes, the host ports they are bound to, and the
 environment that tells the container about them.
 */
module PortMappings {
  import opened Options
  import opened Text

  /** `protocol` is "" when Mesos gives none. */
  datatype Mapping = Mapping(containerPort: nat, hostPort: nat, protocol: string)

  // ----- The protocols of a mapping -----

  /** What \s matches in the tokenizer's regular expression. */
  predicate IsSpace(c: char) {
    c == '\t' || c == '\n' || c == '\U{000C}' || c == '\r' || c == ' '
  }

  predicate StartsWithSpace(s: string) {
    s != [] && IsSpace(s[0])
  }

  /** What is left after a comma: one space is skipped if there is one. */
  function AfterComma(rest: string): string {
    if StartsWithSpace(rest) then rest[1..] else rest
  }

  /** A comma and one space after it, if there is one, separate two pieces. */
  function Pieces(s: string): (r: seq<string>)
    ensures r != [] && forall p :: p in r ==> ',' !in p
    decreases |s|
  {
    var i := IndexOf(s, ',');
    if i == |s| then [s] else [s[..i]] + Pieces(AfterComma(s[i + 1..]))
  }

  /** The protocols, or just "tcp" if any piece is empty. */
  function Protocols(protocol: string): seq<string> {
    if "" in Pieces(protocol) then ["tcp"] else Pieces(protocol)
  }

  /** getPortProtocols: the pieces, until an empty one is met. */
  method GetPortProtocols(protocol: string) returns (protocols: seq<string>)
    ensures protocols == Protocols(protocol)
  {
    var matches := Pieces(protocol);
    protocols := [];
    for i := 0 to |matches|
      invariant protocols == matches[..i] && "" !in matches[..i]
    {
      if matches[i] == "" {
        return ["tcp"];
      }
      protocols := protocols + [matches[i]];
    }
  }

  /** There is always a protocol, and none is empty or has a comma. */
  lemma ProtocolsAreNames(protocol: string)
    ensures Protocols(protocol) != []
    ensures forall p :: p in Protocols(protocol) ==> p != "" && ',' !in p
  {
  }

  /** TCP is meant when no protocol is given, and when an empty one is. */
  lemma DefaultProtocol(protocol: string)
    ensures Protocols("") == ["tcp"]
    ensures "" in Pieces(protocol) ==> Protocols(protocol) == ["tcp"]
    ensures "" !in Pieces(protocol) ==> Protocols(protocol) == Pieces(protocol)
  {
    OnlyPiece("");
    assert "" in [""];
  }

  /** After a comma, exactly one character is skipped if it is one of these. */
  lemma WhatIsSkipped(c: char, rest: string)
    ensures AfterComma("") == "" && AfterComma([c] + rest) == if c in "\t\n\U{000C}\r " then rest else [c] + rest
  {
    assert ([c] + rest)[1..] == rest;
  }

  /** A separator that the tokenizer takes as one. */
  predicate IsSeparator(sep: string) {
    sep == "," || (|sep| == 2 && sep[0] == ',' && IsSpace(sep[1]))
  }

  predicate IsProtocolName(name: string) {
    name != "" && ',' !in name && !IsSpace(name[0])
  }

  /** `names` joined, each pair by a separator of its own. */
  function Joined(names: seq<string>, seps: seq<string>): string
    requires |seps| + 1 == |names|
  {
    if |names| == 1 then names[0] else names[0] + seps[0] + Joined(names[1..], seps[1..])
  }

  lemma FirstPiece(before: string, tail: string)
    requires ',' !in before
    ensures Pieces(before + [','] + tail) == [before] + Pieces(AfterComma(tail))
  {
    SplitJoin(before, ',', tail);
    IndexAfter(before, ',', tail);
  }

  lemma OnlyPiece(s: string)
    requires ',' !in s
    ensures Pieces(s) == [s]
  {
  }

  lemma SeparatorSkipped(sep: string, rest: string)
    requires IsSeparator(sep) && !StartsWithSpace(rest)
    ensures sep + rest == [','] + (sep[1..] + rest) && AfterComma(sep[1..] + rest) == rest
  {
    assert sep == [','] + sep[1..];
  }

  lemma Regroup(name: string, sep: string, rest: string)
    requires IsProtocolName(name) && IsSeparator(sep)
    ensures name + sep + rest == name + [','] + (sep[1..] + rest) && (name + sep + rest)[0] == name[0]
  {
    assert sep == [','] + sep[1..];
  }

  /** Putting a name in front puts a piece in front. */
  lemma JoinStep(name: string, sep: string, rest: string)
    requires IsProtocolName(name) && IsSeparator(sep) && !StartsWithSpace(rest)
    ensures Pieces(name + sep + rest) == [name] + Pieces(rest) && !StartsWithSpace(name + sep + rest)
  {
    Regroup(name, sep, rest);
    SeparatorSkipped(sep, rest);
    FirstPiece(name, sep[1..] + rest);
  }

  lemma {:induction false} PiecesOfJoined(names: seq<string>, seps: seq<string>)
    requires |seps| + 1 == |names|
    requires forall i :: 0 <= i < |names| ==> IsProtocolName(names[i])
    requires forall i :: 0 <= i < |seps| ==> IsSeparator(seps[i])
    ensures Pieces(Joined(names, seps)) == names && !StartsWithSpace(Joined(names, seps))
  {
    if |names| == 1 {
      OnlyPiece(names[0]);
      assert names == [names[0]];
    } else {
      PiecesOfJoined(names[1..], seps[1..]);
      JoinStep(names[0], seps[0], Joined(names[1..], seps[1..]));
      assert names == [names[0]] + names[1..];
    }
  }

  /** A list of protocol names, joined by "," or ", ", is read back as it was. */
  lemma ProtocolsRoundTrip(names: seq<string>, seps: seq<string>)
    requires |seps| + 1 == |names|
    requires forall i :: 0 <= i < |names| ==> IsProtocolName(names[i])
    requires forall i :: 0 <= i < |seps| ==> IsSeparator(seps[i])
    ensures Protocols(Joined(names, seps)) == names
  {
    PiecesOfJoined(names, seps);
    assert forall i :: 0 <= i < |names| ==> names[i] != "";
  }

  // ----- Keys -----

  /** The Docker name of a container port. */
  function Key(containerPort: nat, proto: string): string {
    Decimal(containerPort) + "/" + proto
  }

  /** A key names one port and one protocol. */
  lemma KeyInjective(c: nat, p: string, d: nat, q: string)
    ensures Key(c, p) == Key(d, q) <==> c == d && p == q
  {
    SplitJoin(Decimal(c), '/', p);
    SplitJoin(Decimal(d), '/', q);
    if Key(c, p) == Key(d, q) {
      DecimalInjective(c, d);
    }
  }

  predicate KeyAmong(containerPort: nat, protos: seq<string>, key: string) {
    exists p :: p in protos && key == Decimal(containerPort) + "/" + p
  }

  lemma OneMoreProtocol(c: nat, protos: seq<string>, proto: string, key: string)
    ensures KeyAmong(c, protos + [proto], key) <==> KeyAmong(c, protos, key) || key == Key(c, proto)
  {
    if p :| p in protos && key == Key(c, p) {
      assert p in protos + [proto];
    }
    if key == Key(c, proto) {
      assert proto in protos + [proto];
    }
  }

  /** The mapping is for this key. */
  predicate Has(m: Mapping, key: string) {
    KeyAmong(m.containerPort, Protocols(m.protocol), key)
  }

  // ----- The three views -----

  /** Exposed: every key of a mapping with a container port. */
  ghost predicate IsExposed(ms: seq<Mapping>, key: string) {
    exists i :: 0 <= i < |ms| && ms[i].containerPort != 0 && Has(ms[i], key)
  }

  /** Bound: mapping `i` is the last one with a host port that has this key. */
  ghost predicate BoundBy(ms: seq<Mapping>, i: int, key: string) {
    && 0 <= i < |ms| && ms[i].hostPort >= 1 && Has(ms[i], key)
    && forall j :: i < j < |ms| && ms[j].hostPort >= 1 ==> !Has(ms[j], key)
  }

  const PORT_PREFIX := "MESOS_PORT_"

  function PortName(containerPort: nat): (name: string)
    ensures '=' !in name
  {
    PORT_PREFIX + Decimal(containerPort)
  }

  function EnvEntry(m: Mapping): string {
    PortName(m.containerPort) + "=" + Decimal(m.hostPort)
  }

  /** What the environment finally says: the value of the last entry with this name. */
  function LastValue(env: seq<string>, name: string): Option<string> {
    if env == [] then None
    else if '=' in Last(env) && Name(Last(env)) == name then Some(Value(Last(env)))
    else LastValue(Front(env), name)
  }

  predicate InEnv(m: Mapping) {
    m.containerPort >= 1 && m.hostPort >= 1
  }

  method PortsForTask(ms: seq<Mapping>) returns (ports: set<string>)
    ensures forall key :: key in ports <==> IsExposed(ms, key)
  {
    ports := {};
    for i := 0 to |ms|
      invariant forall key :: key in ports <==> IsExposed(ms[..i], key)
    {
      ghost var before := ports;
      if ms[i].containerPort != 0 {
        ports := Expose(ports, ms[i]);
      }
      forall key ensures key in ports <==> IsExposed(ms[..i + 1], key) {
        assert ms[..i + 1] == ms[..i] + [ms[i]];
        ExposedStep(ms[..i], ms[i], key);
      }
    }
    assert ms[..|ms|] == ms;
  }

  /** The inner loop: one port for each protocol of the mapping. */
  method Expose(before: set<string>, m: Mapping) returns (ports: set<string>)
    ensures forall key :: key in ports <==> key in before || Has(m, key)
  {
    ports := before;
    var protos := GetPortProtocols(m.protocol);
    for k := 0 to |protos|
      invariant forall key :: key in ports <==> key in before || KeyAmong(m.containerPort, protos[..k], key)
    {
      ports := ports + {Key(m.containerPort, protos[k])};
      assert protos[..k + 1] == protos[..k] + [protos[k]];
      forall key {
        OneMoreProtocol(m.containerPort, protos[..k], protos[k], key);
      }
    }
    assert protos[..|protos|] == protos;
  }

  lemma ExposedStep(ms: seq<Mapping>, m: Mapping, key: string)
    ensures IsExposed(ms + [m], key) <==> IsExposed(ms, key) || (m.containerPort != 0 && Has(m, key))
  {
    var all := ms + [m];
    if i :| 0 <= i < |ms| && ms[i].containerPort != 0 && Has(ms[i], key) {
      assert all[i] == ms[i];
    }
    if m.containerPort != 0 && Has(m, key) {
      assert all[|ms|] == m;
    }
  }

  /** What the bindings say: every bound key has the host port of the mapping it is bound by. */
  ghost predicate BindsView(ms: seq<Mapping>, binds: map<string, string>) {
    && (forall key :: key in binds ==> exists i :: BoundBy(ms, i, key))
    && (forall key, i :: BoundBy(ms, i, key) ==> key in binds && binds[key] == Decimal(ms[i].hostPort))
  }

  /** A later mapping overwrites an earlier one. */
  method PortBindingsForTask(ms: seq<Mapping>) returns (binds: map<string, string>)
    ensures BindsView(ms, binds)
  {
    binds := map[];
    for i := 0 to |ms|
      invariant BindsView(ms[..i], binds)
    {
      ghost var before := binds;
      if ms[i].hostPort >= 1 {
        binds := Bind(binds, ms[i]);
      }
      BindsStep(ms[..i], ms[i], before, binds);
      assert ms[..i + 1] == ms[..i] + [ms[i]];
    }
    assert ms[..|ms|] == ms;
  }

  /** The mapping's keys are bound to its host port, the others as before. */
  ghost predicate Rebound(before: map<string, string>, m: Mapping, protos: seq<string>, binds: map<string, string>) {
    forall key ::
      if KeyAmong(m.containerPort, protos, key) then key in binds && binds[key] == Decimal(m.hostPort)
      else (key in binds <==> key in before) && (key in before ==> binds[key] == before[key])
  }

  /** The inner loop: one binding for each protocol of the mapping. */
  method Bind(before: map<string, string>, m: Mapping) returns (binds: map<string, string>)
    ensures Rebound(before, m, Protocols(m.protocol), binds)
  {
    binds := before;
    var protos := GetPortProtocols(m.protocol);
    for k := 0 to |protos|
      invariant Rebound(before, m, protos[..k], binds)
    {
      binds := binds[Key(m.containerPort, protos[k]) := Decimal(m.hostPort)];
      assert protos[..k + 1] == protos[..k] + [protos[k]];
      forall key {
        OneMoreProtocol(m.containerPort, protos[..k], protos[k], key);
      }
    }
    assert protos[..|protos|] == protos;
  }

  lemma BoundStep(ms: seq<Mapping>, m: Mapping, key: string, i: int)
    ensures BoundBy(ms + [m], i, key) <==> if m.hostPort >= 1 && Has(m, key) then i == |ms| else BoundBy(ms, i, key)
  {
    var all := ms + [m];
    assert all[|ms|] == m && forall j :: 0 <= j < |ms| ==> all[j] == ms[j];
  }

  lemma BindsStep(ms: seq<Mapping>, m: Mapping, before: map<string, string>, binds: map<string, string>)
    requires BindsView(ms, before)
    requires if m.hostPort >= 1 then Rebound(before, m, Protocols(m.protocol), binds) else binds == before
    ensures BindsView(ms + [m], binds)
  {
    forall key | key in binds ensures exists i :: BoundBy(ms + [m], i, key) {
      if m.hostPort >= 1 && Has(m, key) {
        BoundStep(ms, m, key, |ms|);
      } else {
        var i :| BoundBy(ms, i, key);
        BoundStep(ms, m, key, i);
      }
    }
    forall key, i | BoundBy(ms + [m], i, key) ensures key in binds && binds[key] == Decimal((ms + [m])[i].hostPort) {
      BoundStep(ms, m, key, i);
    }
  }

  /** The port part of the environment, in the order of the mappings. */
  function EnvPorts(ms: seq<Mapping>): seq<string> {
    if ms == [] then []
    else EnvPorts(Front(ms)) + if InEnv(Last(ms)) then [EnvEntry(Last(ms))] else []
  }

  method EnvPortsForTask(ms: seq<Mapping>) returns (env: seq<string>)
    ensures env == EnvPorts(ms)
    ensures forall entry :: entry in env <==> exists i :: NamesPorts(ms, i, entry)
  {
    env := [];
    for i := 0 to |ms|
      invariant env == EnvPorts(ms[..i])
    {
      assert Front(ms[..i + 1]) == ms[..i];
      if ms[i].containerPort >= 1 && ms[i].hostPort >= 1 {
        env := env + [EnvEntry(ms[i])];
      }
    }
    assert ms[..|ms|] == ms;
    forall entry {
      EnvHas(ms, entry);
    }
  }

  /** The entry is that of mapping `i`, which has both ports. */
  ghost predicate NamesPorts(ms: seq<Mapping>, i: int, entry: string) {
    && 0 <= i < |ms| && ms[i].containerPort >= 1 && ms[i].hostPort >= 1
    && entry == "MESOS_PORT_" + Decimal(ms[i].containerPort) + "=" + Decimal(ms[i].hostPort)
  }

  lemma {:induction false} EnvHas(ms: seq<Mapping>, entry: string)
    ensures entry in EnvPorts(ms) <==> exists i :: NamesPorts(ms, i, entry)
  {
    if ms != [] {
      EnvHas(Front(ms), entry);
      var m := |ms| - 1;
      assert NamesPorts(ms, m, entry) <==> InEnv(ms[m]) && entry == EnvEntry(ms[m]);
      assert forall i :: 0 <= i < m ==> (NamesPorts(ms, i, entry) <==> NamesPorts(Front(ms), i, entry));
    }
  }

  lemma {:induction false} EnvHasMapping(ms: seq<Mapping>, i: nat)
    requires i < |ms| && InEnv(ms[i])
    ensures EnvEntry(ms[i]) in EnvPorts(ms)
  {
    if i < |ms| - 1 {
      EnvHasMapping(Front(ms), i);
    }
  }

  /** A key that is bound is exposed exactly if its container port is not zero. */
  lemma ExposedIfNonzero(ms: seq<Mapping>, i: int, key: string)
    requires 0 <= i < |ms| && Has(ms[i], key)
    ensures IsExposed(ms, key) <==> ms[i].containerPort != 0
  {
    var p :| p in Protocols(ms[i].protocol) && key == Key(ms[i].containerPort, p);
    if j :| 0 <= j < |ms| && ms[j].containerPort != 0 && Has(ms[j], key) {
      var q :| q in Protocols(ms[j].protocol) && key == Key(ms[j].containerPort, q);
      KeyInjective(ms[i].containerPort, p, ms[j].containerPort, q);
    }
  }

  /**
   The port part of ConfigForTask, whose three views agree. A bound key is that of
   one container port and protocol, and its value is the host port of the last
   mapping for it. It is exposed exactly if that container port is not zero, and
   then the environment names both ports; the environment's last word on each such
   port is its binding exactly if no container port is bound to two host ports.
   */
  method PortsOfConfig(ms: seq<Mapping>) returns (ports: set<string>, binds: map<string, string>, env: seq<string>)
    ensures forall key :: key in binds ==> exists i :: BoundBy(ms, i, key)
    ensures forall key, i :: BoundBy(ms, i, key) ==>
              && key in binds && binds[key] == Decimal(ms[i].hostPort)
              && (key in ports <==> ms[i].containerPort != 0)
              && (key in ports ==> EnvEntry(ms[i]) in env)
    ensures (forall key, i :: BoundBy(ms, i, key) && key in ports
               ==> LastValue(env, PortName(ms[i].containerPort)) == Some(binds[key]))
            <==> OneHostPort(ms)
  {
    ports := PortsForTask(ms);
    binds := PortBindingsForTask(ms);
    env := EnvPortsForTask(ms);
    forall key, i | BoundBy(ms, i, key)
      ensures (key in ports <==> ms[i].containerPort != 0) && (key in ports ==> EnvEntry(ms[i]) in env)
    {
      ExposedIfNonzero(ms, i, key);
      if InEnv(ms[i]) {
        EnvHasMapping(ms, i);
      }
    }
    EnvironmentRightExactlyIf(ms);
    assert forall key, i :: BoundBy(ms, i, key) && key in ports ==>
      (Told(ms, i) <==> LastValue(env, PortName(ms[i].containerPort)) == Some(binds[key]));
  }

  // ----- Where the environment and the bindings disagree -----

  /** Mapping `l` is the last one that names this container port in the environment. */
  predicate LastFor(ms: seq<Mapping>, l: int, c: nat) {
    && 0 <= l < |ms| && InEnv(ms[l]) && ms[l].containerPort == c
    && forall j :: l < j < |ms| && InEnv(ms[j]) ==> ms[j].containerPort != c
  }

  lemma {:induction false} LastExists(ms: seq<Mapping>, i: nat) returns (l: int)
    requires i < |ms| && InEnv(ms[i])
    ensures LastFor(ms, l, ms[i].containerPort)
    decreases |ms| - i
  {
    if j :| i < j < |ms| && InEnv(ms[j]) && ms[j].containerPort == ms[i].containerPort {
      l := LastExists(ms, j);
    } else {
      l := i;
    }
  }

  lemma EntrySplits(m: Mapping)
    ensures '=' in EnvEntry(m)
    ensures Name(EnvEntry(m)) == PortName(m.containerPort) && Value(EnvEntry(m)) == Decimal(m.hostPort)
  {
    SplitJoin(PortName(m.containerPort), '=', Decimal(m.hostPort));
  }

  lemma PortNameInjective(c: nat, d: nat)
    requires PortName(c) == PortName(d)
    ensures c == d
  {
    assert PortName(c)[|PORT_PREFIX|..] == Decimal(c) && PortName(d)[|PORT_PREFIX|..] == Decimal(d);
    DecimalInjective(c, d);
  }

  /** The last entry for a container port is that of the last mapping for it. */
  lemma {:induction false} LastValueIs(ms: seq<Mapping>, l: int, c: nat)
    requires LastFor(ms, l, c)
    ensures LastValue(EnvPorts(ms), PortName(c)) == Some(Decimal(ms[l].hostPort))
  {
    var m, before := Last(ms), EnvPorts(Front(ms));
    EntrySplits(m);
    if InEnv(m) {
      assert EnvPorts(ms) == before + [EnvEntry(m)];
      assert Front(EnvPorts(ms)) == before && Last(EnvPorts(ms)) == EnvEntry(m);
    } else {
      assert EnvPorts(ms) == before;
    }
    if l < |ms| - 1 {
      LastValueIs(Front(ms), l, c);
      if InEnv(m) && PortName(m.containerPort) == PortName(c) {
        PortNameInjective(m.containerPort, c);
      }
    }
  }

  /**
   The environment has no protocols. For a port that is bound and exposed, its last
   word is the host port that is bound exactly if the last mapping for that
   container port, of whatever protocol, has the same host port.
   */
  lemma EnvironmentAgreesExactlyIf(ms: seq<Mapping>, i: int, key: string, l: int)
    requires BoundBy(ms, i, key) && ms[i].containerPort != 0 && LastFor(ms, l, ms[i].containerPort)
    ensures LastValue(EnvPorts(ms), PortName(ms[i].containerPort)) == Some(Decimal(ms[i].hostPort))
            <==> ms[l].hostPort == ms[i].hostPort
  {
    LastValueIs(ms, l, ms[i].containerPort);
    if Decimal(ms[l].hostPort) == Decimal(ms[i].hostPort) {
      DecimalInjective(ms[l].hostPort, ms[i].hostPort);
    }
  }

  /** All protocols of a container port are bound to one host port. */
  ghost predicate OneHostPort(ms: seq<Mapping>) {
    forall i, j, key, other ::
      BoundBy(ms, i, key) && BoundBy(ms, j, other) && ms[i].containerPort == ms[j].containerPort != 0
      ==> ms[i].hostPort == ms[j].hostPort
  }

  /** The environment's last word on this binding is what the binding says. */
  ghost predicate Told(ms: seq<Mapping>, i: int)
    requires 0 <= i < |ms|
  {
    LastValue(EnvPorts(ms), PortName(ms[i].containerPort)) == Some(Decimal(ms[i].hostPort))
  }

  /** The last mapping for a container port binds it. */
  lemma LastBinds(ms: seq<Mapping>, l: int, c: nat) returns (key: string)
    requires LastFor(ms, l, c)
    ensures BoundBy(ms, l, key)
  {
    ProtocolsAreNames(ms[l].protocol);
    var p := Protocols(ms[l].protocol)[0];
    key := Key(c, p);
    assert p in Protocols(ms[l].protocol);
    forall j | l < j < |ms| && ms[j].hostPort >= 1 ensures !Has(ms[j], key) {
      if Has(ms[j], key) {
        var q :| q in Protocols(ms[j].protocol) && key == Key(ms[j].containerPort, q);
        KeyInjective(c, p, ms[j].containerPort, q);
      }
    }
  }

  /** The environment is right about every binding exactly if no container port is bound to two host ports. */
  lemma EnvironmentRightExactlyIf(ms: seq<Mapping>)
    ensures (forall i, key :: BoundBy(ms, i, key) && ms[i].containerPort != 0 ==> Told(ms, i)) <==> OneHostPort(ms)
  {
    if OneHostPort(ms) {
      forall i, key | BoundBy(ms, i, key) && ms[i].containerPort != 0 ensures Told(ms, i) {
        var l := LastExists(ms, i);
        var other := LastBinds(ms, l, ms[i].containerPort);
        EnvironmentAgreesExactlyIf(ms, i, key, l);
      }
    }
    if forall i, key :: BoundBy(ms, i, key) && ms[i].containerPort != 0 ==> Told(ms, i) {
      forall i, j, key, other | BoundBy(ms, i, key) && BoundBy(ms, j, other)
        && ms[i].containerPort == ms[j].containerPort != 0 ensures ms[i].hostPort == ms[j].hostPort
      {
        assert Told(ms, i) && Told(ms, j);
        DecimalInjective(ms[i].hostPort, ms[j].hostPort);
      }
    }
  }

  /** With TCP and UDP of a container port on different host ports, it is wrong about TCP. */
  lemma EnvironmentIgnoresProtocol(c: nat, h: nat, k: nat)
    requires c >= 1 && h >= 1 && k >= 1 && h != k
    ensures var ms := [Mapping(c, h, "tcp"), Mapping(c, k, "udp")];
            && BoundBy(ms, 0, Key(c, "tcp")) && !Told(ms, 0)
            && BoundBy(ms, 1, Key(c, "udp")) && Told(ms, 1)
  {
    var tcp, udp := Mapping(c, h, "tcp"), Mapping(c, k, "udp");
    var ms := [tcp, udp];
    OnlyPiece("tcp");
    OnlyPiece("udp");
    assert Protocols("tcp") == ["tcp"] && Protocols("udp") == ["udp"];
    assert "tcp" in ["tcp"] && "udp" in ["udp"];
    KeyInjective(c, "tcp", c, "udp");
    assert !Has(udp, Key(c, "tcp")) && Has(tcp, Key(c, "tcp")) && Has(udp, Key(c, "udp"));
    EnvironmentAgreesExactlyIf(ms, 0, Key(c, "tcp"), 1);
    EnvironmentAgreesExactlyIf(ms, 1, Key(c, "udp"), 1);
  }
}
