/**
 The ports of external listeners: the checks of the admission webhook and the
 container ports of the Envoy deployment of a listener.
 */
module EnvoyPorts {
  import opened Wrappers
  import opened ScaleParameters

  // ---------------------------------------------------------------------------
  // Specs

  /** What is known of the config of a broker: it cannot be composed, it is nil, or its roles and ingress mapping. */
  datatype ConfigResult = ConfigError | NoConfig | Config(roles: seq<string>, mapping: seq<string>)

  datatype Broker = Broker(id: int, config: ConfigResult)

  /** Ports of an Envoy config, where they are set. */
  datatype Envoy = Envoy(admin: Option<int>, health: Option<int>) {
    function AdminPort(): int {
      if admin.Some? then admin.value else 8081
    }

    function HealthPort(): int {
      if health.Some? then health.value else 8080
    }
  }

  datatype Listener = Listener(
    startingPort: int,
    containerPort: int,
    target: Option<int>,
    accessMethod: string,
    override: map<string, Envoy>)   // Envoy configs of this listener alone, by name
  {
    predicate IsLoadBalancer() {
      accessMethod == "" || accessMethod == "LoadBalancer"
    }

    function TargetPort(): int {
      if target.Some? then target.value else 29092
    }

    predicate TLSEnabled() {
      startingPort == -1
    }

    function BrokerPort(id: int): int
      requires !TLSEnabled()
    {
      Wrap32(startingPort + id)
    }
  }

  datatype Spec = Spec(
    ingress: string,
    brokers: seq<Broker>,
    internalPorts: seq<int>,
    listeners: seq<Listener>,
    envoy: Envoy)
  {
    predicate UsesEnvoy() {
      ingress == "" || ingress == "envoy"
    }
  }

  /** Addition of 32-bit integers. */
  function Wrap32(n: int): int {
    (n + INT32_LIMIT) % (2 * INT32_LIMIT) - INT32_LIMIT
  }

  const MAX_PORT := 65535
  const BROKER_ID_LIMIT := 65535

  /** What the schema of the API server demands of broker ids. */
  predicate HasAdmittedIds(spec: Spec) {
    forall i :: 0 <= i < |spec.brokers| ==> 0 <= spec.brokers[i].id < BROKER_ID_LIMIT
  }

  ghost predicate Distinct(s: seq<int>) {
    forall i, j :: 0 <= i < j < |s| ==> s[i] != s[j]
  }

  // ---------------------------------------------------------------------------
  // Duplicate container ports

  function Elements(s: seq<int>): set<int> {
    set i | 0 <= i < |s| :: s[i]
  }

  /** The positions whose port occurs at an earlier position. */
  function Repeats(ports: seq<int>): seq<nat> {
    if ports == [] then []
    else
      var k := |ports| - 1;
      Repeats(ports[..k]) + if ports[k] in ports[..k] then [k] else []
  }

  lemma {:induction false} RepeatsMember(ports: seq<int>, i: nat)
    ensures i in Repeats(ports) <==> i < |ports| && ports[i] in ports[..i]
  {
    if ports != [] {
      var k := |ports| - 1;
      RepeatsMember(ports[..k], i);
      if i < k {
        assert ports[..k][..i] == ports[..i];
      }
    }
  }

  /** There are exactly as many repeats as ports more than distinct ones. */
  lemma {:induction false} RepeatsCount(ports: seq<int>)
    ensures |Repeats(ports)| == |ports| - |Elements(ports)|
    ensures Repeats(ports) == [] <==> Distinct(ports)
  {
    if ports != [] {
      var k := |ports| - 1;
      RepeatsCount(ports[..k]);
      ElementsOfFront(ports);
      if Repeats(ports) == [] {
        forall i, j | 0 <= i < j < |ports| ensures ports[i] != ports[j] {
          RepeatsMember(ports, j);
          assert ports[j] !in ports[..j];
          assert ports[..j][i] == ports[i];
        }
      } else {
        var j := Repeats(ports)[0];
        assert j in Repeats(ports);
        RepeatsMember(ports, j);
        var i :| 0 <= i < j && ports[..j][i] == ports[j];
        assert ports[i] == ports[j];
      }
    }
  }

  lemma ElementsOfFront(ports: seq<int>)
    requires ports != []
    ensures Elements(ports) == Elements(ports[..|ports| - 1]) + {ports[|ports| - 1]}
    ensures ports[|ports| - 1] in Elements(ports[..|ports| - 1]) <==> ports[|ports| - 1] in ports[..|ports| - 1]
  {
    var front := ports[..|ports| - 1];
    assert forall i :: 0 <= i < |front| ==> front[i] == ports[i];
  }

  lemma RepeatsStep(seen: seq<int>, p: int)
    ensures Repeats(seen + [p]) == Repeats(seen) + if p in seen then [|seen|] else []
  {
    assert (seen + [p])[..|seen|] == seen;
  }

  /** counts tells how often each port was seen. */
  ghost predicate Counts(counts: map<int, nat>, seen: seq<int>) {
    forall p :: multiset(seen)[p] == if p in counts then counts[p] else 0
  }

  lemma CountsStep(counts: map<int, nat>, seen: seq<int>, p: int)
    requires Counts(counts, seen)
    ensures
      var n := (if p in counts then counts[p] else 0) + 1;
      Counts(counts[p := n], seen + [p]) && (n > 1 <==> p in seen)
  {
    assert multiset(seen + [p]) == multiset(seen) + multiset{p};
    assert multiset(seen)[p] > 0 <==> p in seen;
  }

  /**
   Reports every listener whose container port was already used; external
   listeners are counted after internal ones.
   */
  method CheckUniqueListenerContainerPort(internalPorts: seq<int>, externalPorts: seq<int>) returns (errors: seq<nat>)
    ensures errors == Repeats(internalPorts + externalPorts)
    ensures |errors| == |internalPorts| + |externalPorts| - |Elements(internalPorts + externalPorts)|
  {
    hide Repeats, Counts, Elements;
    RepeatsCount(internalPorts + externalPorts);
    NothingSeen();
    assert [] + internalPorts == internalPorts;
    var counts, first := CountPorts(map[], internalPorts, []);
    var _, second := CountPorts(counts, externalPorts, internalPorts);
    errors := first + second;
  }

  lemma NothingSeen()
    ensures Counts(map[], []) && Repeats([]) == []
  {
  }

  method CountPorts(before: map<int, nat>, ports: seq<int>, seen: seq<int>)
    returns (counts: map<int, nat>, errors: seq<nat>)
    requires Counts(before, seen)
    ensures Counts(counts, seen + ports) && Repeats(seen + ports) == Repeats(seen) + errors
  {
    hide Repeats, Counts;
    counts, errors := before, [];
    assert seen + ports[..0] == seen;
    for i := 0 to |ports|
      invariant Counts(counts, seen + ports[..i]) && Repeats(seen + ports[..i]) == Repeats(seen) + errors
    {
      var p := ports[i];
      assert seen + ports[..i + 1] == seen + ports[..i] + [p];
      RepeatsStep(seen + ports[..i], p);
      CountsStep(counts, seen + ports[..i], p);
      counts := counts[p := (if p in counts then counts[p] else 0) + 1];
      if counts[p] > 1 {
        errors := errors + [|seen| + i];
      }
    }
    assert ports[..|ports|] == ports;
  }

  // ---------------------------------------------------------------------------
  // External ports

  /** The external port of a broker, as the webhook computes it. */
  function ExternalPort(l: Listener, id: int): int {
    Wrap32(l.startingPort + id)
  }

  predicate IsInRange(port: int) {
    1 <= port <= MAX_PORT
  }

  predicate HitsTarget(l: Listener, id: int) {
    ExternalPort(l, id) == l.TargetPort()
  }

  predicate HitsEnvoy(spec: Spec, l: Listener, id: int) {
    spec.UsesEnvoy() && ExternalPort(l, id) in {spec.envoy.AdminPort(), spec.envoy.HealthPort()}
  }

  datatype PortError =
    | OutOfRange(listener: nat, ids: seq<int>)
    | Collision(listener: nat, ids: seq<int>)
    | SameEnvoyPorts
    | TargetIsAdmin(listener: nat)
    | TargetIsHealth(listener: nat)

  /** One listener: the ids out of range, and the ids whose ports collide, an id twice if it collides twice. */
  method CheckListener(spec: Spec, l: Listener) returns (outOfRange: seq<int>, colliding: seq<int>)
    ensures forall id :: id in outOfRange <==>
      exists b :: b in spec.brokers && b.id == id && !IsInRange(ExternalPort(l, id))
    ensures forall id :: id in colliding <==>
      exists b :: b in spec.brokers && b.id == id && (HitsTarget(l, id) || HitsEnvoy(spec, l, id))
  {
    outOfRange, colliding := [], [];
    for i := 0 to |spec.brokers|
      invariant forall id :: id in outOfRange <==>
        exists b :: b in spec.brokers[..i] && b.id == id && !IsInRange(ExternalPort(l, id))
      invariant forall id :: id in colliding <==>
        exists b :: b in spec.brokers[..i] && b.id == id && (HitsTarget(l, id) || HitsEnvoy(spec, l, id))
    {
      hide Wrap32;
      var broker := spec.brokers[i];
      assert spec.brokers[..i + 1] == spec.brokers[..i] + [broker];
      assert broker in spec.brokers[..i + 1];
      var port := ExternalPort(l, broker.id);
      if port < 1 || port > MAX_PORT {
        outOfRange := outOfRange + [broker.id];
      }
      if port == l.TargetPort() {
        colliding := colliding + [broker.id];
      }
      if spec.UsesEnvoy() {
        if port == spec.envoy.AdminPort() || port == spec.envoy.HealthPort() {
          colliding := colliding + [broker.id];
        }
      }
    }
    assert spec.brokers[..|spec.brokers|] == spec.brokers;
  }

  /** Every broker's external port of the listener is a port that nothing else uses. */
  ghost predicate PortsAreFree(spec: Spec, l: Listener) {
    forall b :: b in spec.brokers ==>
      IsInRange(ExternalPort(l, b.id)) && !HitsTarget(l, b.id) && !HitsEnvoy(spec, l, b.id)
  }

  method CheckExternalListenerStartingPort(spec: Spec) returns (errors: seq<PortError>)
    ensures errors == [] <==> forall l :: l in spec.listeners ==> PortsAreFree(spec, l)
    ensures forall e :: e in errors ==> (e.OutOfRange? || e.Collision?) && e.listener < |spec.listeners| && e.ids != []
  {
    errors := [];
    for i := 0 to |spec.listeners|
      invariant errors == [] <==> forall l :: l in spec.listeners[..i] ==> PortsAreFree(spec, l)
      invariant forall e :: e in errors ==>
        (e.OutOfRange? || e.Collision?) && e.listener < |spec.listeners| && e.ids != []
    {
      var l := spec.listeners[i];
      assert spec.listeners[..i + 1] == spec.listeners[..i] + [l];
      var outOfRange, colliding := CheckListener(spec, l);
      FreeWhenNoneReported(spec, l, outOfRange, colliding);
      if |outOfRange| > 0 {
        errors := errors + [OutOfRange(i, outOfRange)];
      }
      if |colliding| > 0 {
        errors := errors + [Collision(i, colliding)];
      }
    }
    assert spec.listeners[..|spec.listeners|] == spec.listeners;
  }

  lemma FreeWhenNoneReported(spec: Spec, l: Listener, outOfRange: seq<int>, colliding: seq<int>)
    requires forall id :: id in outOfRange <==>
      exists b :: b in spec.brokers && b.id == id && !IsInRange(ExternalPort(l, id))
    requires forall id :: id in colliding <==>
      exists b :: b in spec.brokers && b.id == id && (HitsTarget(l, id) || HitsEnvoy(spec, l, id))
    ensures outOfRange == [] && colliding == [] <==> PortsAreFree(spec, l)
  {
    hide Wrap32, HitsTarget, HitsEnvoy, IsInRange;
    if outOfRange == [] && colliding == [] {
      forall b | b in spec.brokers
        ensures IsInRange(ExternalPort(l, b.id)) && !HitsTarget(l, b.id) && !HitsEnvoy(spec, l, b.id)
      {
        assert b.id !in outOfRange && b.id !in colliding;
      }
    }
    if outOfRange != [] {
      assert outOfRange[0] in outOfRange;
      var id := outOfRange[0];
      var b :| b in spec.brokers && b.id == id && !IsInRange(ExternalPort(l, id));
      assert !IsInRange(ExternalPort(l, b.id));
    }
    if colliding != [] {
      assert colliding[0] in colliding;
      var id := colliding[0];
      var b :| b in spec.brokers && b.id == id && (HitsTarget(l, id) || HitsEnvoy(spec, l, id));
      assert HitsTarget(l, b.id) || HitsEnvoy(spec, l, b.id);
    }
  }

  /** The target port of a load balancer listener differs from Envoy's own ports. */
  predicate TargetIsFree(spec: Spec, l: Listener) {
    l.IsLoadBalancer() ==> l.TargetPort() != spec.envoy.AdminPort() && l.TargetPort() != spec.envoy.HealthPort()
  }

  /** Envoy's own ports differ from each other and from all target ports. */
  ghost predicate EnvoyIsFree(spec: Spec) {
    spec.envoy.AdminPort() != spec.envoy.HealthPort() && forall l :: l in spec.listeners ==> TargetIsFree(spec, l)
  }

  method CheckTargetPortsCollisionForEnvoy(spec: Spec) returns (errors: seq<PortError>)
    ensures errors == [] <==>
      (spec.UsesEnvoy() ==> EnvoyIsFree(spec))
  {
    errors := [];
    if !spec.UsesEnvoy() {
      return;
    }
    var admin, health := spec.envoy.AdminPort(), spec.envoy.HealthPort();
    if admin == health {
      errors := errors + [SameEnvoyPorts];
    }
    for i := 0 to |spec.listeners|
      invariant errors == [] <==> admin != health && forall l :: l in spec.listeners[..i] ==> TargetIsFree(spec, l)
    {
      var l := spec.listeners[i];
      assert spec.listeners[..i + 1] == spec.listeners[..i] + [l];
      assert l in spec.listeners[..i + 1];
      if l.IsLoadBalancer() {
        if l.TargetPort() == admin {
          errors := errors + [TargetIsAdmin(i)];
        }
        if l.TargetPort() == health {
          errors := errors + [TargetIsHealth(i)];
        }
      }
    }
    assert spec.listeners[..|spec.listeners|] == spec.listeners;
  }

  function ContainerPorts(spec: Spec): seq<int> {
    seq(|spec.listeners|, i requires 0 <= i < |spec.listeners| => spec.listeners[i].containerPort)
  }

  /** What a spec must satisfy to be accepted. */
  ghost predicate IsAccepted(spec: Spec) {
    && Distinct(spec.internalPorts + ContainerPorts(spec))
    && (forall l :: l in spec.listeners ==> PortsAreFree(spec, l))
    && (spec.UsesEnvoy() ==> EnvoyIsFree(spec))
  }

  /** The webhook's verdict. */
  method Validate(spec: Spec) returns (ok: bool)
    ensures ok <==> IsAccepted(spec)
  {
    var duplicates := CheckUniqueListenerContainerPort(spec.internalPorts, ContainerPorts(spec));
    RepeatsCount(spec.internalPorts + ContainerPorts(spec));
    var starting := CheckExternalListenerStartingPort(spec);
    var targets := CheckTargetPortsCollisionForEnvoy(spec);
    return |duplicates| + |starting| + |targets| == 0;
  }

  // ---------------------------------------------------------------------------
  // Broker ids

  const INT64_LIMIT: nat := 0x8000_0000_0000_0000

  ghost predicate Increasing(s: seq<int>) {
    forall i, j :: 0 <= i < j < |s| ==> s[i] < s[j]
  }

  /** x put into its place. */
  function Insert(x: int, s: seq<int>): seq<int> {
    if s == [] || x < s[0] then [x] + s else [s[0]] + Insert(x, s[1..])
  }

  lemma {:induction false} InsertSpec(x: int, s: seq<int>)
    ensures forall y :: y in Insert(x, s) <==> y == x || y in s
    ensures Increasing(s) && x !in s ==> Increasing(Insert(x, s))
  {
    if s != [] && x >= s[0] {
      assert s == [s[0]] + s[1..];
      InsertSpec(x, s[1..]);
      if Increasing(s) && x !in s {
        var rest := Insert(x, s[1..]);
        forall i | 0 <= i < |rest| ensures s[0] < rest[i] {
          assert rest[i] in rest;
        }
      }
    }
  }

  /** An id that the spec or the status of the cluster names. */
  ghost predicate IsNamed(brokers: seq<Broker>, statuses: map<string, seq<string>>, id: int) {
    (exists b :: b in brokers && b.id == id) || (exists s :: s in statuses && ParseInt(s, INT64_LIMIT) == Some(id))
  }

  /** The ids of the spec and of the status, each once, in order. */
  method GetBrokerIds(statuses: map<string, seq<string>>, brokers: seq<Broker>) returns (ids: seq<int>)
    ensures Increasing(ids)
    ensures forall id :: id in ids <==> IsNamed(brokers, statuses, id)
  {
    hide ParseInt;
    var found: set<int> := {};
    for i := 0 to |brokers|
      invariant forall id :: id in found <==> exists b :: b in brokers[..i] && b.id == id
    {
      assert brokers[..i + 1] == brokers[..i] + [brokers[i]];
      found := found + {brokers[i].id};
    }
    assert brokers[..|brokers|] == brokers;
    ghost var ofSpec := found;
    var left := statuses.Keys;
    while left != {}
      invariant left <= statuses.Keys
      invariant forall id :: id in found <==>
        id in ofSpec || exists s :: s in statuses.Keys - left && ParseInt(s, INT64_LIMIT) == Some(id)
      decreases |left|
    {
      var s :| s in left;
      var id := ParseInt(s, INT64_LIMIT);
      if id.Some? {
        found := found + {id.value};
      }
      left := left - {s};
    }
    ids := SortIds(found);
  }

  lemma SomeElement(s: set<int>)
    requires s != {}
    ensures exists x :: x in s
  {
    assert (forall x :: x !in s) ==> s <= {};
  }

  method SortIds(found: set<int>) returns (ids: seq<int>)
    ensures Increasing(ids)
    ensures forall id :: id in ids <==> id in found
  {
    hide Insert;
    ids := [];
    var rest := found;
    while rest != {}
      invariant rest <= found && Increasing(ids)
      invariant forall id :: id in ids <==> id in found - rest
      decreases |rest|
    {
      SomeElement(rest);
      var id :| id in rest;
      InsertSpec(id, ids);
      ids := Insert(id, ids);
      rest := rest - {id};
    }
  }

  // ---------------------------------------------------------------------------
  // The ports of the Envoy container

  /** The config of the first broker with this id; none when no broker of the spec has it. */
  function ConfigOf(brokers: seq<Broker>, id: int): ConfigResult {
    if brokers == [] then NoConfig else if brokers[0].id == id then brokers[0].config else ConfigOf(brokers[1..], id)
  }

  lemma {:induction false} ConfigIsOfSpec(brokers: seq<Broker>, id: int)
    requires ConfigOf(brokers, id).Config?
    ensures exists b :: b in brokers && b.id == id
  {
    if brokers[0].id == id {
      assert brokers[0] in brokers;
    } else {
      ConfigIsOfSpec(brokers[1..], id);
      var b :| b in brokers[1..] && b.id == id;
      assert b in brokers;
    }
  }

  /** The broker is a broker node that the ingress config serves now, or served before. */
  predicate ShouldInclude(config: ConfigResult, statuses: map<string, seq<string>>, id: int, default: string,
                          name: string)
  {
    && config.Config?
    && (config.roles == [] || "broker" in config.roles)
    && (|| (config.mapping == [] && (name == default || default == ""))
        || name in config.mapping
        || (id >= 0 && Itoa(id) in statuses && name in statuses[Itoa(id)]))
  }

  /** The cluster as the deployment of one ingress config of one listener sees it. */
  datatype Site = Site(
    spec: Spec,
    statuses: map<string, seq<string>>,
    listener: Listener,
    default: string,
    name: string)
  {
    predicate Exposes(id: int) {
      ShouldInclude(ConfigOf(spec.brokers, id), statuses, id, default, name) && !listener.TLSEnabled()
    }

    function PortOf(id: int): int
      requires Exposes(id)
    {
      if id < 0 || id >= INT32_LIMIT then 0 else listener.BrokerPort(id)
    }

    /** The Envoy config in use: that of the listener, with the cluster's ports where it sets none. */
    function EnvoyInUse(): Envoy {
      if name in listener.override then
        var own := listener.override[name];
        Envoy(if own.admin.Some? then own.admin else spec.envoy.admin,
              if own.health.Some? then own.health else spec.envoy.health)
      else spec.envoy
    }
  }

  function BrokerPorts(site: Site, ids: seq<int>): seq<int> {
    if ids == [] then []
    else
      var k := |ids| - 1;
      BrokerPorts(site, ids[..k]) + if site.Exposes(ids[k]) then [site.PortOf(ids[k])] else []
  }

  method GetExposedContainerPorts(site: Site, ids: seq<int>) returns (ports: seq<int>)
    ensures ports == BrokerPorts(site, ids) + [site.listener.TargetPort()]
  {
    ports := [];
    for i := 0 to |ids|
      invariant ports == BrokerPorts(site, ids[..i])
    {
      assert ids[..i + 1][..i] == ids[..i];
      if site.Exposes(ids[i]) {
        ports := ports + [site.PortOf(ids[i])];
      }
    }
    assert ids[..|ids|] == ids;
    ports := ports + [site.listener.TargetPort()];
  }

  /** All ports of the Envoy container. */
  method DeploymentPorts(site: Site) returns (ports: seq<int>, ids: seq<int>)
    ensures Increasing(ids) && forall id :: id in ids <==> IsNamed(site.spec.brokers, site.statuses, id)
    ensures ports == EnvoyContainerPorts(site, ids)
  {
    ids := GetBrokerIds(site.statuses, site.spec.brokers);
    var exposed := GetExposedContainerPorts(site, ids);
    ports := exposed + [site.EnvoyInUse().AdminPort(), site.EnvoyInUse().HealthPort()];
    assert ports == EnvoyContainerPorts(site, ids);
  }

  function EnvoyContainerPorts(site: Site, ids: seq<int>): seq<int> {
    BrokerPorts(site, ids) + [site.listener.TargetPort(), site.EnvoyInUse().AdminPort(), site.EnvoyInUse().HealthPort()]
  }

  /** Different brokers of an admitted spec have different ports. */
  lemma BrokerPortsDiffer(site: Site, a: int, b: int)
    requires HasAdmittedIds(site.spec) && site.Exposes(a) && site.Exposes(b) && site.PortOf(a) == site.PortOf(b)
    ensures a == b
  {
    ExposedIsAdmitted(site, a);
    ExposedIsAdmitted(site, b);
    WrapIsInjective(site.listener.startingPort, a, b);
  }

  lemma ExposedIsAdmitted(site: Site, id: int)
    requires HasAdmittedIds(site.spec) && site.Exposes(id)
    ensures 0 <= id < BROKER_ID_LIMIT && exists b :: b in site.spec.brokers && b.id == id
  {
    ConfigIsOfSpec(site.spec.brokers, id);
  }

  /** The port that Envoy exposes for a broker is the one that the webhook checks: the starting port plus the id. */
  lemma ExposedPortIsChecked(site: Site, id: int)
    requires HasAdmittedIds(site.spec) && site.Exposes(id)
    requires 0 <= site.listener.startingPort && site.listener.startingPort + id <= 2147483647
    ensures site.PortOf(id) == ExternalPort(site.listener, id) == site.listener.startingPort + id
  {
    ExposedIsAdmitted(site, id);
  }

  /**
   Which ingress configs serve a broker of the spec: none if it is a mere
   controller; those it is mapped to, or the default one, or every one when there
   is no default; and any that served it before.
   */
  lemma ServedExactlyWhen(config: ConfigResult, statuses: map<string, seq<string>>, id: nat, default: string,
                          name: string)
    requires config.Config?
    ensures
      var mapped := if config.mapping != [] then name in config.mapping else default == "" || name == default;
      var served := Itoa(id) in statuses && name in statuses[Itoa(id)];
      && (config.roles == ["controller"] ==> !ShouldInclude(config, statuses, id, default, name))
      && (config.roles == [] || "broker" in config.roles ==>
        (ShouldInclude(config, statuses, id, default, name) <==> mapped || served))
  {
    assert "controller"[0] != "broker"[0];
  }

  /** Each port of Envoy: the listener's own, or the cluster's, or the default. */
  lemma PortsInUse(site: Site)
    ensures
      var own := if site.name in site.listener.override then site.listener.override[site.name] else Envoy(None, None);
      var admins, healths := [own.admin, site.spec.envoy.admin, Some(8081)],
                             [own.health, site.spec.envoy.health, Some(8080)];
      && IsFirstSet(site.EnvoyInUse().AdminPort(), admins)
      && IsFirstSet(site.EnvoyInUse().HealthPort(), healths)
  {
    var own := if site.name in site.listener.override then site.listener.override[site.name] else Envoy(None, None);
    FirstSet(own.admin, site.spec.envoy.admin, 8081);
    FirstSet(own.health, site.spec.envoy.health, 8080);
  }

  lemma FirstSet(a: Option<int>, b: Option<int>, c: int)
    ensures IsFirstSet(if a.Some? then a.value else if b.Some? then b.value else c, [a, b, Some(c)])
  {
    var choices := [a, b, Some(c)];
    assert choices[0] == a && choices[1] == b && choices[2] == Some(c);
  }

  /** x is the first of the choices that is set. */
  ghost predicate IsFirstSet(x: int, choices: seq<Option<int>>) {
    exists i :: 0 <= i < |choices| && choices[i] == Some(x) && forall j :: 0 <= j < i ==> choices[j].None?
  }

  lemma WrapIsInjective(start: int, a: int, b: int)
    requires 0 <= a < BROKER_ID_LIMIT && 0 <= b < BROKER_ID_LIMIT && Wrap32(start + a) == Wrap32(start + b)
    ensures a == b
  {
    var m := 2 * INT32_LIMIT;
    var x, y := start + a + INT32_LIMIT, start + b + INT32_LIMIT;
    assert x % m == y % m;
    assert x - y == m * (x / m - y / m);
  }

  lemma {:induction false} BrokerPortsMembers(site: Site, ids: seq<int>, p: int)
    ensures p in BrokerPorts(site, ids) <==> exists id :: id in ids && site.Exposes(id) && site.PortOf(id) == p
  {
    if ids != [] {
      var k := |ids| - 1;
      BrokerPortsMembers(site, ids[..k], p);
      assert ids == ids[..k] + [ids[k]];
    }
  }

  lemma {:induction false} BrokerPortsDistinct(site: Site, ids: seq<int>)
    requires HasAdmittedIds(site.spec) && Increasing(ids)
    ensures Distinct(BrokerPorts(site, ids))
  {
    if ids != [] {
      var k := |ids| - 1;
      BrokerPortsDistinct(site, ids[..k]);
      if site.Exposes(ids[k]) {
        BrokerPortsMembers(site, ids[..k], site.PortOf(ids[k]));
        forall id | id in ids[..k] && site.Exposes(id) ensures site.PortOf(id) != site.PortOf(ids[k]) {
          if site.PortOf(id) == site.PortOf(ids[k]) {
            BrokerPortsDiffer(site, id, ids[k]);
          }
        }
        AppendDistinct(BrokerPorts(site, ids[..k]), site.PortOf(ids[k]));
      }
    }
  }

  lemma AppendDistinct(s: seq<int>, x: int)
    ensures Distinct(s + [x]) <==> Distinct(s) && x !in s
  {
    if Distinct(s + [x]) {
      assert forall i :: 0 <= i < |s| ==> (s + [x])[i] == s[i];
      assert (s + [x])[|s|] == x;
    }
  }

  /** No exposed broker port is the target port or one of Envoy's own ports. */
  ghost predicate ExposedAreFree(site: Site, ids: seq<int>) {
    forall id :: id in ids && site.Exposes(id) ==>
      site.PortOf(id) !in [site.listener.TargetPort(), site.EnvoyInUse().AdminPort(), site.EnvoyInUse().HealthPort()]
  }

  /** The ports of the Envoy container are distinct exactly when these few inequalities hold. */
  lemma EnvoyPortsDistinctExactlyWhen(site: Site, ids: seq<int>)
    requires HasAdmittedIds(site.spec) && Increasing(ids)
    ensures
      var target, envoy := site.listener.TargetPort(), site.EnvoyInUse();
      var admin, health := envoy.AdminPort(), envoy.HealthPort();
      Distinct(EnvoyContainerPorts(site, ids)) <==>
        target != admin && target != health && admin != health && ExposedAreFree(site, ids)
  {
    var target, envoy := site.listener.TargetPort(), site.EnvoyInUse();
    var admin, health := envoy.AdminPort(), envoy.HealthPort();
    var ports := BrokerPorts(site, ids);
    BrokerPortsDistinct(site, ids);
    AppendDistinct(ports, target);
    AppendDistinct(ports + [target], admin);
    AppendDistinct(ports + [target] + [admin], health);
    assert EnvoyContainerPorts(site, ids) == ports + [target] + [admin] + [health];
    BrokerPortsMembers(site, ids, target);
    BrokerPortsMembers(site, ids, admin);
    BrokerPortsMembers(site, ids, health);
  }

  /**
   For every accepted spec with Envoy as its ingress controller, the container
   of a load balancer listener without an Envoy config of its own has pairwise
   distinct ports, whatever brokers the status still names.
   */
  lemma AcceptedSpecHasDistinctPorts(site: Site, ids: seq<int>)
    requires HasAdmittedIds(site.spec) && IsAccepted(site.spec) && site.spec.UsesEnvoy()
    requires site.listener in site.spec.listeners && site.listener.IsLoadBalancer()
    requires site.EnvoyInUse() == site.spec.envoy
    requires Increasing(ids) && forall id :: id in ids <==> IsNamed(site.spec.brokers, site.statuses, id)
    ensures Distinct(EnvoyContainerPorts(site, ids))
  {
    EnvoyPortsDistinctExactlyWhen(site, ids);
    assert PortsAreFree(site.spec, site.listener) && TargetIsFree(site.spec, site.listener);
    forall id | id in ids && site.Exposes(id)
      ensures site.PortOf(id) !in
        [site.listener.TargetPort(), site.EnvoyInUse().AdminPort(), site.EnvoyInUse().HealthPort()]
    {
      ExposedIsAdmitted(site, id);
      var b :| b in site.spec.brokers && b.id == id;
      assert !HitsTarget(site.listener, b.id) && !HitsEnvoy(site.spec, site.listener, b.id);
    }
  }

  /** The webhook does not look at a listener's own Envoy config, so an accepted one may collide. */
  lemma OverrideMayCollide()
    ensures
      var listener := Listener(19090, 9094, None, "", map["own" := Envoy(Some(29092), None)]);
      var spec := Spec("", [Broker(0, Config([], []))], [29000], [listener], Envoy(None, None));
      var site := Site(spec, map[], listener, "own", "own");
      IsAccepted(spec) && HasAdmittedIds(spec) && !Distinct(EnvoyContainerPorts(site, [0]))
  {
    var listener := Listener(19090, 9094, None, "", map["own" := Envoy(Some(29092), None)]);
    var spec := Spec("", [Broker(0, Config([], []))], [29000], [listener], Envoy(None, None));
    var site := Site(spec, map[], listener, "own", "own");
    assert ContainerPorts(spec) == [9094];
    EnvoyPortsDistinctExactlyWhen(site, [0]);
  }
}
