/** The Compose hardening check over rendered stacks. */
module Hardening {
  import opened Text
  import opened Names

  datatype Environment = Mapping(names: set<string>) | Listing(items: seq<string>)

  datatype Volume =
    | Long(source: Option<string>, kind: string, target: string, readOnly: bool)
    | Short(text: string)

  /** A published port; entries that are not mappings or publish nothing are `Internal`. */
  datatype Port = Published(published: string, hostIp: Option<string>) | Internal

  datatype Service = Service(
    securityOpt: seq<string>, capDrop: seq<string>, privileged: bool,
    environment: Environment, readOnly: bool, volumes: seq<Volume>, ports: seq<Port>)

  type Stack = map<string, Service>

  const CAPABILITY_EXEMPT: set<string> := {"authentik-server", "authentik-worker"}
  const READ_ONLY: set<string> := {
    "integration-core", "integration-core-no-outline", "hub",
    "mock-identity", "mock-espocrm", "mock-redmine", "mock-outline"}
  const WRITABLE_BINDS: set<string> := {}
  const ADMIN_SECRETS: seq<(string, set<string>)> := [
    ("BSYSTEM_AUTHENTIK_ADMIN_TOKEN", {"authentik-worker"}),
    ("AUTHENTIK_ADMIN_TOKEN", {"integration-core", "integration-core-no-outline"})]

  datatype Problem =
    | NoService
    | MayGainPrivileges | ExemptButDrops | KeepsCapabilities | Privileged
    | RestrictedSecret(variable: string) | WritableRoot
    | DockerSocket | WritableBind(source: Option<string>, target: string)
    | OpenPort(published: string)

  // ----- What a good stack is

  predicate Receives(environment: Environment, variable: string) {
    match environment
    case Mapping(names) => variable in names
    case Listing(items) => exists i :: 0 <= i < |items| && Before(items[i], "=") == variable
  }

  predicate DropsAll(service: Service) {
    exists i :: 0 <= i < |service.capDrop| && EqualFold(service.capDrop[i], "ALL")
  }

  predicate SecretsPlaced(name: string, service: Service) {
    && (Receives(service.environment, "BSYSTEM_AUTHENTIK_ADMIN_TOKEN") ==> name == "authentik-worker")
    && (Receives(service.environment, "AUTHENTIK_ADMIN_TOKEN") ==>
          name == "integration-core" || name == "integration-core-no-outline")
  }

  function SourceText(volume: Volume): (text: string)
  {
    match volume
    case Long(Some(source), _, _, _) => source
    case Long(None, _, _, _) => ""
    case Short(text) => text
  }

  predicate IsBind(volume: Volume) { volume.Long? && volume.kind == "bind" }

  predicate VolumeOk(volume: Volume) {
    && Find(SourceText(volume), "docker.sock") < 0
    && (IsBind(volume) ==> volume.readOnly)
  }

  predicate PortOk(port: Port) {
    port.Published? ==> port.hostIp.Some? && port.hostIp.value !in {"", "0.0.0.0", "::"}
  }

  /** The capability rule goes both ways: an exempt service must drop nothing. */
  predicate ServiceOk(name: string, service: Service) {
    && "no-new-privileges:true" in service.securityOpt
    && (if name in CAPABILITY_EXEMPT then service.capDrop == [] else DropsAll(service))
    && !service.privileged
    && SecretsPlaced(name, service)
    && (name in READ_ONLY ==> service.readOnly)
    && (forall v :: v in service.volumes ==> VolumeOk(v))
    && (forall p :: p in service.ports ==> PortOk(p))
  }

  predicate StackOk(stack: Stack) {
    stack != map[] && forall name :: name in stack ==> ServiceOk(name, stack[name])
  }

  ghost predicate HasBind(stack: Stack) {
    exists name :: name in stack && ServiceHasBind(stack[name])
  }

  ghost predicate ServiceHasBind(service: Service) {
    exists v :: v in service.volumes && v.Long? && v.kind == "bind"
  }

  /** What the check is for. */
  ghost predicate Accepts(stacks: seq<Stack>) {
    && (forall stack :: stack in stacks ==> StackOk(stack))
    && exists stack :: stack in stacks && HasBind(stack)
  }

  // ----- What is reported

  function Flag(bad: bool, problem: Problem): seq<Problem> {
    if bad then [problem] else []
  }

  function VolumeProblems(volume: Volume): seq<Problem> {
    Flag(Find(SourceText(volume), "docker.sock") >= 0, DockerSocket)
    + if IsBind(volume) then Flag(!volume.readOnly, WritableBind(volume.source, volume.target)) else []
  }

  function AllVolumeProblems(volumes: seq<Volume>): seq<Problem> {
    if volumes == [] then []
    else AllVolumeProblems(volumes[..|volumes| - 1]) + VolumeProblems(volumes[|volumes| - 1])
  }

  function PortProblems(port: Port): seq<Problem> {
    if PortOk(port) then [] else [OpenPort(port.published)]
  }

  function AllPortProblems(ports: seq<Port>): seq<Problem> {
    if ports == [] then []
    else AllPortProblems(ports[..|ports| - 1]) + PortProblems(ports[|ports| - 1])
  }

  function SecretProblems(name: string, environment: Environment): seq<Problem> {
    Flag(Receives(environment, "BSYSTEM_AUTHENTIK_ADMIN_TOKEN") && name != "authentik-worker",
         RestrictedSecret("BSYSTEM_AUTHENTIK_ADMIN_TOKEN"))
    + Flag(Receives(environment, "AUTHENTIK_ADMIN_TOKEN")
           && name != "integration-core" && name != "integration-core-no-outline",
           RestrictedSecret("AUTHENTIK_ADMIN_TOKEN"))
  }

  function CapabilityProblems(name: string, service: Service): seq<Problem> {
    if name in CAPABILITY_EXEMPT then Flag(service.capDrop != [], ExemptButDrops)
    else Flag(!DropsAll(service), KeepsCapabilities)
  }

  /** Every rule a service breaks, in the order of the rules. */
  function ServiceProblems(name: string, service: Service): seq<Problem> {
    Flag("no-new-privileges:true" !in service.securityOpt, MayGainPrivileges)
    + CapabilityProblems(name, service)
    + Flag(service.privileged, Privileged)
    + SecretProblems(name, service.environment)
    + Flag(name in READ_ONLY && !service.readOnly, WritableRoot)
    + AllVolumeProblems(service.volumes)
    + AllPortProblems(service.ports)
  }

  /** The variable is set: as a key of a mapping, or in a list as itself or before a "=". */
  ghost predicate Sets(environment: Environment, variable: string) {
    match environment
    case Mapping(names) => variable in names
    case Listing(items) => exists item :: item in items && (item == variable || variable + "=" <= item)
  }

  /** `part` occurs in `text`. */
  ghost predicate Occurs(part: string, text: string) {
    exists k :: 0 <= k <= |text| && part <= text[k..]
  }

  /** The rule that `problem` names is broken. */
  ghost predicate Breaks(name: string, service: Service, problem: Problem) {
    match problem
    case NoService => false
    case MayGainPrivileges => "no-new-privileges:true" !in service.securityOpt
    case ExemptButDrops => name in {"authentik-server", "authentik-worker"} && service.capDrop != []
    case KeepsCapabilities =>
      name !in {"authentik-server", "authentik-worker"} && forall c :: c in service.capDrop ==> Lower(c) != "all"
    case Privileged => service.privileged
    case RestrictedSecret(variable) =>
      && Sets(service.environment, variable)
      && ((variable == "BSYSTEM_AUTHENTIK_ADMIN_TOKEN" && name != "authentik-worker")
          || (variable == "AUTHENTIK_ADMIN_TOKEN" && name !in {"integration-core", "integration-core-no-outline"}))
    case WritableRoot =>
      !service.readOnly &&
      name in {"integration-core", "integration-core-no-outline", "hub",
               "mock-identity", "mock-espocrm", "mock-redmine", "mock-outline"}
    case DockerSocket =>
      exists v :: v in service.volumes && MountsSocket(v)
    case WritableBind(source, target) =>
      exists v :: v in service.volumes && v == Long(source, "bind", target, false)
    case OpenPort(published) =>
      exists host: Option<string> ::
        Published(published, host) in service.ports && (host == None || host.value in {"", "0.0.0.0", "::"})
  }

  ghost predicate MountsSocket(v: Volume) {
    match v
    case Long(source, _, _, _) => source.Some? && Occurs("docker.sock", source.value)
    case Short(text) => Occurs("docker.sock", text)
  }

  lemma OccursWhenFound(part: string, text: string)
    requires part != []
    ensures Find(text, part) >= 0 <==> Occurs(part, text)
  {
    if k :| 0 <= k <= |text| && part <= text[k..] {
      FindIsFirst(text, part, k);
    }
  }

  lemma SocketIsFound(v: Volume)
    ensures Find(SourceText(v), "docker.sock") >= 0 <==> MountsSocket(v)
  {
    hide Find, Occurs;
    OccursWhenFound("docker.sock", SourceText(v));
    OccursWhenFound("docker.sock", "");
    NothingOccurs("docker.sock");
  }

  lemma NothingOccurs(part: string)
    requires part != []
    ensures !Occurs(part, "")
  {
  }

  lemma ItemSets(item: string, variable: string)
    requires '=' !in variable
    ensures Before(item, "=") == variable <==> item == variable || variable + "=" <= item
  {
    if variable + "=" <= item {
      assert item == variable + "=" + item[|variable| + 1..];
      SplitAt(variable, "=", item[|variable| + 1..]);
    } else {
      BeforeEquals(item);
    }
  }

  lemma BeforeEquals(item: string)
    ensures if '=' in item then Before(item, "=") + "=" <= item else Before(item, "=") == item
  {
    if '=' in item {
      var k: nat :| k < |item| && item[k] == '=';
      FindIsFirst(item, "=", k);
      var i := Find(item, "=");
      assert item[i] == item[i..][0] == '=';
      assert item[..i + 1] == item[..i] + "=";
    } else {
      NotFound(item, "=");
    }
  }

  lemma ReceivesIsSets(environment: Environment, variable: string)
    requires '=' !in variable
    ensures Receives(environment, variable) <==> Sets(environment, variable)
  {
    hide Before;
    if environment.Listing? {
      var items := environment.items;
      forall i | 0 <= i < |items|
        ensures Before(items[i], "=") == variable <==> items[i] == variable || variable + "=" <= items[i]
      {
        ItemSets(items[i], variable);
      }
      if Sets(environment, variable) {
        var item :| item in items && (item == variable || variable + "=" <= item);
        var i :| 0 <= i < |items| && items[i] == item;
      }
      assert forall i :: 0 <= i < |items| ==> items[i] in items;
    }
  }

  /** A secret is reported exactly for a service that gets it and may not, however its
      environment is written. */
  lemma SecretProblemsFrom(name: string, environment: Environment, problem: Problem)
    ensures problem in SecretProblems(name, environment) <==>
      && problem.RestrictedSecret?
      && Sets(environment, problem.variable)
      && ((problem.variable == "BSYSTEM_AUTHENTIK_ADMIN_TOKEN" && name != "authentik-worker")
          || (problem.variable == "AUTHENTIK_ADMIN_TOKEN"
              && name !in {"integration-core", "integration-core-no-outline"}))
  {
    hide Receives, Sets;
    ReceivesIsSets(environment, "BSYSTEM_AUTHENTIK_ADMIN_TOKEN");
    ReceivesIsSets(environment, "AUTHENTIK_ADMIN_TOKEN");
  }

  lemma AllIsDropped(service: Service)
    ensures DropsAll(service) <==> exists c :: c in service.capDrop && Lower(c) == "all"
  {
    assert Lower("ALL") == "all";
    hide Lower;
    if DropsAll(service) {
      var i :| 0 <= i < |service.capDrop| && EqualFold(service.capDrop[i], "ALL");
      assert service.capDrop[i] in service.capDrop;
    }
    if c :| c in service.capDrop && Lower(c) == "all" {
      var i :| 0 <= i < |service.capDrop| && service.capDrop[i] == c;
    }
  }

  lemma CapabilityProblemsFrom(name: string, service: Service, problem: Problem)
    ensures problem in CapabilityProblems(name, service) <==>
      (problem.ExemptButDrops? || problem.KeepsCapabilities?) && Breaks(name, service, problem)
  {
    hide DropsAll, Lower;
    AllIsDropped(service);
  }

  lemma ProblemsOfVolume(v: Volume, problem: Problem)
    ensures problem in VolumeProblems(v) <==>
      || (problem.DockerSocket? && MountsSocket(v))
      || (problem.WritableBind? && v == Long(problem.source, "bind", problem.target, false))
  {
    hide Find, SourceText, MountsSocket;
    SocketIsFound(v);
  }

  lemma {:induction false} VolumeProblemsFrom(volumes: seq<Volume>, problem: Problem)
    ensures problem in AllVolumeProblems(volumes) <==> exists v :: v in volumes && problem in VolumeProblems(v)
  {
    hide VolumeProblems;
    if volumes != [] {
      var n := |volumes| - 1;
      VolumeProblemsFrom(volumes[..n], problem);
      assert forall v :: v in volumes <==> v in volumes[..n] || v == volumes[n];
    }
  }

  lemma {:induction false} PortProblemsFrom(ports: seq<Port>, problem: Problem)
    ensures problem in AllPortProblems(ports) <==> exists p :: p in ports && problem in PortProblems(p)
  {
    hide PortProblems;
    if ports != [] {
      var n := |ports| - 1;
      PortProblemsFrom(ports[..n], problem);
      assert forall p :: p in ports <==> p in ports[..n] || p == ports[n];
    }
  }

  lemma ProblemsOfVolumes(volumes: seq<Volume>, problem: Problem)
    ensures problem in AllVolumeProblems(volumes) <==>
      || (problem.DockerSocket? && exists v :: v in volumes && MountsSocket(v))
      || (problem.WritableBind? && exists v :: v in volumes && v == Long(problem.source, "bind", problem.target, false))
  {
    hide AllVolumeProblems, VolumeProblems, MountsSocket;
    VolumeProblemsFrom(volumes, problem);
    forall v ensures problem in VolumeProblems(v) <==>
        || (problem.DockerSocket? && MountsSocket(v))
        || (problem.WritableBind? && v == Long(problem.source, "bind", problem.target, false))
    {
      ProblemsOfVolume(v, problem);
    }
  }

  lemma ProblemsOfPorts(ports: seq<Port>, problem: Problem)
    ensures problem in AllPortProblems(ports) <==>
      problem.OpenPort? &&
      exists host: Option<string> ::
        Published(problem.published, host) in ports && (host == None || host.value in {"", "0.0.0.0", "::"})
  {
    hide AllPortProblems;
    PortProblemsFrom(ports, problem);
    if p :| p in ports && problem in PortProblems(p) {
      assert p == Published(problem.published, p.hostIp);
    }
  }

  /** Exactly the broken rules are reported. */
  lemma ReportedIsBroken(name: string, service: Service, problem: Problem)
    ensures problem in ServiceProblems(name, service) <==> Breaks(name, service, problem)
  {
    hide AllVolumeProblems, AllPortProblems, SecretProblems, CapabilityProblems, MountsSocket, Sets, Lower;
    SecretProblemsFrom(name, service.environment, problem);
    CapabilityProblemsFrom(name, service, problem);
    ProblemsOfVolumes(service.volumes, problem);
    ProblemsOfPorts(service.ports, problem);
  }

  lemma NoProblemWithVolume(volume: Volume)
    ensures VolumeProblems(volume) == [] <==> VolumeOk(volume)
  {
    hide Find, SourceText;
  }

  lemma {:induction false} NoVolumeProblem(volumes: seq<Volume>)
    ensures AllVolumeProblems(volumes) == [] <==> forall v :: v in volumes ==> VolumeOk(v)
  {
    hide VolumeProblems, VolumeOk;
    if volumes != [] {
      var n := |volumes| - 1;
      NoProblemWithVolume(volumes[n]);
      NoVolumeProblem(volumes[..n]);
      assert forall v :: v in volumes <==> v in volumes[..n] || v == volumes[n];
    }
  }

  lemma {:induction false} NoPortProblem(ports: seq<Port>)
    ensures AllPortProblems(ports) == [] <==> forall p :: p in ports ==> PortOk(p)
  {
    hide PortOk;
    if ports != [] {
      var n := |ports| - 1;
      NoPortProblem(ports[..n]);
      assert forall p :: p in ports <==> p in ports[..n] || p == ports[n];
    }
  }

  /** Nothing is reported about a service exactly if it meets every rule. */
  lemma NoProblemMeansOk(name: string, service: Service)
    ensures ServiceProblems(name, service) == [] <==> ServiceOk(name, service)
  {
    hide Receives, VolumeOk, PortOk, AllVolumeProblems, AllPortProblems, DropsAll;
    NoVolumeProblem(service.volumes);
    NoPortProblem(service.ports);
  }

  /** A service meets every rule exactly if it breaks none of them. */
  lemma OkBreaksNothing(name: string, service: Service)
    ensures ServiceOk(name, service) <==> forall problem :: !Breaks(name, service, problem)
  {
    hide ServiceOk, ServiceProblems, Breaks;
    NoProblemMeansOk(name, service);
    forall problem ensures problem in ServiceProblems(name, service) <==> Breaks(name, service, problem) {
      ReportedIsBroken(name, service, problem);
    }
    var problems := ServiceProblems(name, service);
    assert problems != [] ==> problems[0] in problems;
  }

  /** The rules in the order in which a service is checked. */
  function Place(problem: Problem): nat {
    match problem
    case NoService => 0
    case MayGainPrivileges => 1
    case ExemptButDrops => 2
    case KeepsCapabilities => 2
    case Privileged => 3
    case RestrictedSecret(_) => 4
    case WritableRoot => 5
    case DockerSocket => 6
    case WritableBind(_, _) => 6
    case OpenPort(_) => 7
  }

  ghost predicate InOrder(problems: seq<Problem>, low: nat, high: nat) {
    && (forall i :: 0 <= i < |problems| ==> low <= Place(problems[i]) <= high)
    && (forall i, j :: 0 <= i < j < |problems| ==> Place(problems[i]) <= Place(problems[j]))
  }

  lemma OrderConcat(a: seq<Problem>, b: seq<Problem>, low: nat, mid: nat, high: nat)
    requires low <= mid <= high && InOrder(a, low, mid) && InOrder(b, mid, high)
    ensures InOrder(a + b, low, high)
  {
    hide Place;
  }

  lemma Placed(problems: seq<Problem>, low: nat, place: nat)
    requires low <= place && forall problem :: problem in problems ==> Place(problem) == place
    ensures InOrder(problems, low, place)
  {
    hide Place;
    assert forall i :: 0 <= i < |problems| ==> problems[i] in problems;
  }

  lemma PlacedFlag(bad: bool, problem: Problem, low: nat)
    requires low <= Place(problem)
    ensures InOrder(Flag(bad, problem), low, Place(problem))
  {
    Placed(Flag(bad, problem), low, Place(problem));
  }

  lemma ListsInOrder(name: string, service: Service)
    ensures InOrder(CapabilityProblems(name, service), 1, 2)
    ensures InOrder(SecretProblems(name, service.environment), 3, 4)
    ensures InOrder(AllVolumeProblems(service.volumes), 5, 6)
    ensures InOrder(AllPortProblems(service.ports), 6, 7)
  {
    hide InOrder, CapabilityProblems, SecretProblems, AllVolumeProblems, AllPortProblems, Breaks, MountsSocket, Sets;
    forall problem: Problem
      ensures problem in CapabilityProblems(name, service) ==> Place(problem) == 2
      ensures problem in SecretProblems(name, service.environment) ==> Place(problem) == 4
      ensures problem in AllVolumeProblems(service.volumes) ==> Place(problem) == 6
      ensures problem in AllPortProblems(service.ports) ==> Place(problem) == 7
    {
      CapabilityProblemsFrom(name, service, problem);
      SecretProblemsFrom(name, service.environment, problem);
      ProblemsOfVolumes(service.volumes, problem);
      ProblemsOfPorts(service.ports, problem);
    }
    Placed(CapabilityProblems(name, service), 1, 2);
    Placed(SecretProblems(name, service.environment), 3, 4);
    Placed(AllVolumeProblems(service.volumes), 5, 6);
    Placed(AllPortProblems(service.ports), 6, 7);
  }

  /** The problems of a service are reported rule by rule. */
  lemma ReportedInOrder(name: string, service: Service)
    ensures InOrder(ServiceProblems(name, service), 1, 7)
  {
    hide CapabilityProblems, SecretProblems, AllVolumeProblems, AllPortProblems, InOrder, Flag;
    var a := Flag("no-new-privileges:true" !in service.securityOpt, MayGainPrivileges);
    var b := a + CapabilityProblems(name, service);
    var c := b + Flag(service.privileged, Privileged);
    var d := c + SecretProblems(name, service.environment);
    var e := d + Flag(name in READ_ONLY && !service.readOnly, WritableRoot);
    PlacedFlag("no-new-privileges:true" !in service.securityOpt, MayGainPrivileges, 1);
    PlacedFlag(service.privileged, Privileged, 2);
    PlacedFlag(name in READ_ONLY && !service.readOnly, WritableRoot, 4);
    ListsInOrder(name, service);
    OrderConcat(a, CapabilityProblems(name, service), 1, 1, 2);
    OrderConcat(b, Flag(service.privileged, Privileged), 1, 2, 3);
    OrderConcat(c, SecretProblems(name, service.environment), 1, 3, 4);
    OrderConcat(d, Flag(name in READ_ONLY && !service.readOnly, WritableRoot), 1, 4, 5);
    OrderConcat(e, AllVolumeProblems(service.volumes), 1, 5, 6);
    OrderConcat(e + AllVolumeProblems(service.volumes), AllPortProblems(service.ports), 1, 6, 7);
  }

  /** A problem with the name of the service it was found in. */
  type Finding = (string, Problem)

  function Tagged(name: string, problems: seq<Problem>): (findings: seq<Finding>)
    ensures |findings| == |problems|
  {
    seq(|problems|, i requires 0 <= i < |problems| => (name, problems[i]))
  }

  /** What is reported about a stack whose services are walked in the order `names`. */
  function Findings(stack: Stack, names: seq<string>): seq<Finding>
    requires forall i :: 0 <= i < |names| ==> names[i] in stack
  {
    if names == [] then []
    else
      var name := names[|names| - 1];
      Findings(stack, names[..|names| - 1]) + Tagged(name, ServiceProblems(name, stack[name]))
  }

  /** The report on a stack: that it has no service, or the problems of each service, the
      services in ascending order of their names. */
  ghost predicate IsReport(stack: Stack, findings: seq<Finding>) {
    if stack == map[] then findings == [("", NoService)]
    else exists names :: SortedNames(names, stack.Keys) && findings == Findings(stack, names)
  }

  // ----- The check

  function CountBinds(volumes: seq<Volume>): nat {
    if volumes == [] then 0
    else CountBinds(volumes[..|volumes| - 1]) + if IsBind(volumes[|volumes| - 1]) then 1 else 0
  }

  lemma {:induction false} BindsAreSeen(volumes: seq<Volume>)
    ensures CountBinds(volumes) > 0 <==> exists v :: v in volumes && IsBind(v)
  {
    if volumes != [] {
      var n := |volumes| - 1;
      BindsAreSeen(volumes[..n]);
      assert forall v :: v in volumes <==> v in volumes[..n] || v == volumes[n];
    }
  }

  method CheckVolumes(volumes: seq<Volume>) returns (problems: seq<Problem>, binds: nat)
    ensures problems == AllVolumeProblems(volumes)
    ensures binds == CountBinds(volumes)
  {
    hide Find, SourceText;
    problems, binds := [], 0;
    for n := 0 to |volumes|
      invariant problems == AllVolumeProblems(volumes[..n])
      invariant binds == CountBinds(volumes[..n])
    {
      var volume := volumes[n];
      assert volumes[..n + 1][..n] == volumes[..n];
      NoSocketInNothing();
      if SourceText(volume) != "" && Find(SourceText(volume), "docker.sock") >= 0 {
        problems := problems + [DockerSocket];
      }
      if !IsBind(volume) {
        continue;
      }
      binds := binds + 1;
      if SourceText(volume) in WRITABLE_BINDS {
        continue;
      }
      if !volume.readOnly {
        problems := problems + [WritableBind(volume.source, volume.target)];
      }
    }
    assert volumes[..|volumes|] == volumes;
  }

  lemma NoSocketInNothing()
    ensures Find("", "docker.sock") < 0
  {
  }

  method CheckPorts(ports: seq<Port>) returns (problems: seq<Problem>)
    ensures problems == AllPortProblems(ports)
  {
    problems := [];
    for n := 0 to |ports|
      invariant problems == AllPortProblems(ports[..n])
    {
      assert ports[..n + 1][..n] == ports[..n];
      if ports[n].Published? && (ports[n].hostIp.None? || ports[n].hostIp.value in {"", "0.0.0.0", "::"}) {
        problems := problems + [OpenPort(ports[n].published)];
      }
    }
    assert ports[..|ports|] == ports;
  }

  method CheckSecrets(name: string, environment: Environment) returns (problems: seq<Problem>)
    ensures problems == SecretProblems(name, environment)
  {
    problems := [];
    ghost var first := Flag(Receives(environment, "BSYSTEM_AUTHENTIK_ADMIN_TOKEN") && name != "authentik-worker",
                            RestrictedSecret("BSYSTEM_AUTHENTIK_ADMIN_TOKEN"));
    for n := 0 to |ADMIN_SECRETS|
      invariant problems == if n == 0 then [] else if n == 1 then first else SecretProblems(name, environment)
    {
      if Receives(environment, ADMIN_SECRETS[n].0) && name !in ADMIN_SECRETS[n].1 {
        problems := problems + [RestrictedSecret(ADMIN_SECRETS[n].0)];
      }
    }
  }

  method CheckService(name: string, service: Service) returns (problems: seq<Problem>, binds: nat)
    ensures problems == ServiceProblems(name, service)
    ensures problems == [] <==> ServiceOk(name, service)
    ensures binds == CountBinds(service.volumes)
  {
    hide Receives, AllVolumeProblems, AllPortProblems, SecretProblems, ServiceOk, DropsAll, CountBinds;
    NoProblemMeansOk(name, service);
    problems := [];
    if "no-new-privileges:true" !in service.securityOpt {
      problems := problems + [MayGainPrivileges];
    }
    if name in CAPABILITY_EXEMPT {
      if service.capDrop != [] {
        problems := problems + [ExemptButDrops];
      }
    } else if !DropsAll(service) {
      problems := problems + [KeepsCapabilities];
    }
    if service.privileged {
      problems := problems + [Privileged];
    }
    assert problems == Flag("no-new-privileges:true" !in service.securityOpt, MayGainPrivileges)
      + CapabilityProblems(name, service) + Flag(service.privileged, Privileged);
    var secrets := CheckSecrets(name, service.environment);
    problems := problems + secrets;
    if name in READ_ONLY && !service.readOnly {
      problems := problems + [WritableRoot];
    }
    var volumes, count := CheckVolumes(service.volumes);
    var ports := CheckPorts(service.ports);
    problems := problems + volumes + ports;
    binds := count;
  }

  ghost function BindsOf(stack: Stack, names: seq<string>): nat
    requires forall i :: 0 <= i < |names| ==> names[i] in stack
  {
    if names == [] then 0
    else BindsOf(stack, names[..|names| - 1]) + CountBinds(stack[names[|names| - 1]].volumes)
  }

  lemma {:induction false} FindingsOfNames(stack: Stack, names: seq<string>)
    requires forall i :: 0 <= i < |names| ==> names[i] in stack
    ensures Findings(stack, names) == [] <==> forall i :: 0 <= i < |names| ==> ServiceOk(names[i], stack[names[i]])
    ensures BindsOf(stack, names) > 0 <==> exists i :: 0 <= i < |names| && ServiceHasBind(stack[names[i]])
  {
    hide ServiceOk, ServiceProblems, ServiceHasBind, CountBinds, Tagged;
    if names != [] {
      var n := |names| - 1;
      FindingsOfNames(stack, names[..n]);
      NoProblemMeansOk(names[n], stack[names[n]]);
      SeenInService(stack[names[n]]);
    }
  }

  lemma FindingsOfNone(stack: Stack)
    ensures Findings(stack, []) == [] && BindsOf(stack, []) == 0
  {
  }

  lemma FindingsOfNext(stack: Stack, names: seq<string>, n: nat)
    requires n < |names| && forall i :: 0 <= i < |names| ==> names[i] in stack
    ensures var name := names[n];
      && Findings(stack, names[..n + 1]) ==
           Findings(stack, names[..n]) + Tagged(name, ServiceProblems(name, stack[name]))
      && BindsOf(stack, names[..n + 1]) == BindsOf(stack, names[..n]) + CountBinds(stack[name].volumes)
  {
    assert names[..n + 1][..n] == names[..n];
  }

  lemma NoServiceIsBad()
    ensures !StackOk(map[]) && !HasBind(map[])
  {
  }

  /** What the whole stack's report says. */
  lemma FindingsOfStack(stack: Stack, names: seq<string>)
    requires SortedNames(names, stack.Keys) && stack != map[]
    requires forall i :: 0 <= i < |names| ==> names[i] in stack
    ensures Findings(stack, names) == [] <==> StackOk(stack)
    ensures BindsOf(stack, names) > 0 <==> HasBind(stack)
  {
    hide ServiceOk, ServiceHasBind, Findings, BindsOf;
    FindingsOfNames(stack, names);
    assert forall name :: name in stack ==> name in names;
  }

  lemma SeenInService(service: Service)
    ensures CountBinds(service.volumes) > 0 <==> ServiceHasBind(service)
  {
    BindsAreSeen(service.volumes);
  }

  /** One stack; `checked` is the number of its services. */
  method Inspect(stack: Stack) returns (findings: seq<Finding>, checked: nat, binds: nat)
    ensures IsReport(stack, findings)
    ensures findings == [] <==> StackOk(stack)
    ensures checked == |stack|
    ensures binds > 0 <==> HasBind(stack)
  {
    hide ServiceOk, StackOk, HasBind, ServiceProblems, Tagged, CountBinds, Findings, BindsOf;
    if stack == map[] {
      NoServiceIsBad();
      return [("", NoService)], 0, 0;
    }
    findings, binds := [], 0;
    var names := Sort(stack.Keys);
    assert forall i :: 0 <= i < |names| ==> names[i] in names;
    FindingsOfStack(stack, names);
    FindingsOfNone(stack);
    for n := 0 to |names|
      invariant findings == Findings(stack, names[..n])
      invariant binds == BindsOf(stack, names[..n])
    {
      var name := names[n];
      FindingsOfNext(stack, names, n);
      var problems, count := CheckService(name, stack[name]);
      findings := findings + Tagged(name, problems);
      binds := binds + count;
    }
    assert names[..|names|] == names;
    checked := |stack|;
  }

  /** The findings of one report after another. */
  function Flatten(reports: seq<seq<Finding>>): seq<Finding> {
    if reports == [] then [] else Flatten(reports[..|reports| - 1]) + reports[|reports| - 1]
  }

  /** `findings` is the report on each stack, in the order of the stacks. */
  ghost predicate IsFullReport(stacks: seq<Stack>, findings: seq<Finding>) {
    exists reports: seq<seq<Finding>> :: ReportsOn(stacks, reports) && findings == Flatten(reports)
  }

  ghost predicate ReportsOn(stacks: seq<Stack>, reports: seq<seq<Finding>>) {
    |reports| == |stacks| && forall i :: 0 <= i < |stacks| ==> IsReport(stacks[i], reports[i])
  }

  /** What is wrong with a stack: it is empty, or one of its services breaks a rule. */
  ghost predicate Wrong(stack: Stack, f: Finding) {
    if stack == map[] then f == ("", NoService) else f.0 in stack && Breaks(f.0, stack[f.0], f.1)
  }

  lemma {:induction false} FindingsFrom(stack: Stack, names: seq<string>, f: Finding)
    requires forall i :: 0 <= i < |names| ==> names[i] in stack
    ensures f in Findings(stack, names) <==> f.0 in names && f.1 in ServiceProblems(f.0, stack[f.0])
  {
    hide ServiceProblems;
    if names != [] {
      var n := |names| - 1;
      FindingsFrom(stack, names[..n], f);
      TaggedFrom(names[n], ServiceProblems(names[n], stack[names[n]]), f);
      assert f.0 in names <==> f.0 in names[..n] || f.0 == names[n];
    }
  }

  lemma TaggedFrom(name: string, problems: seq<Problem>, f: Finding)
    ensures f in Tagged(name, problems) <==> f.0 == name && f.1 in problems
  {
    if f.0 == name && f.1 in problems {
      var i :| 0 <= i < |problems| && problems[i] == f.1;
      assert Tagged(name, problems)[i] == f;
    }
  }

  ghost predicate Ascending(names: seq<string>) {
    forall i, j :: 0 <= i < j < |names| ==> Le(names[i], names[j])
  }

  function Owners(findings: seq<Finding>): seq<string> {
    seq(|findings|, i requires 0 <= i < |findings| => findings[i].0)
  }

  /** More findings of a name that no earlier one exceeds. */
  lemma AppendOwner(owners: seq<string>, name: string, n: nat)
    requires Ascending(owners) && forall i :: 0 <= i < |owners| ==> Le(owners[i], name)
    ensures Ascending(owners + seq(n, _ => name))
  {
    hide Le;
    assert Le(name, name) by { LeReflexive(name); }
  }

  lemma {:induction false} FindingsAscend(stack: Stack, names: seq<string>)
    requires forall i :: 0 <= i < |names| ==> names[i] in stack
    requires Ascending(names)
    ensures Ascending(Owners(Findings(stack, names)))
    ensures forall owner :: owner in Owners(Findings(stack, names)) ==> owner in names
  {
    hide Le, ServiceProblems;
    if names != [] {
      var n := |names| - 1;
      var earlier := Findings(stack, names[..n]);
      var problems := ServiceProblems(names[n], stack[names[n]]);
      FindingsAscend(stack, names[..n]);
      forall i | 0 <= i < |Owners(earlier)| ensures Le(Owners(earlier)[i], names[n]) {
        assert Owners(earlier)[i] in names[..n];
        var k :| 0 <= k < n && names[k] == Owners(earlier)[i];
      }
      AppendOwner(Owners(earlier), names[n], |problems|);
      assert Owners(Findings(stack, names)) == Owners(earlier) + seq(|problems|, _ => names[n]);
    }
  }

  /** The report on a stack goes through its services in ascending order. */
  lemma ReportAscends(stack: Stack, findings: seq<Finding>)
    requires IsReport(stack, findings)
    ensures forall i, j :: 0 <= i < j < |findings| ==> Le(findings[i].0, findings[j].0)
  {
    hide Le, Findings;
    if stack != map[] {
      var names :| SortedNames(names, stack.Keys) && findings == Findings(stack, names);
      assert forall i :: 0 <= i < |names| ==> names[i] in names;
      FindingsAscend(stack, names);
      assert forall i :: 0 <= i < |findings| ==> Owners(findings)[i] == findings[i].0;
    }
  }

  /** The report on a stack lists exactly what is wrong with it. */
  lemma ReportIsExact(stack: Stack, findings: seq<Finding>, f: Finding)
    requires IsReport(stack, findings)
    ensures f in findings <==> Wrong(stack, f)
  {
    hide Breaks, Findings, ServiceProblems;
    if stack != map[] {
      var names :| SortedNames(names, stack.Keys) && findings == Findings(stack, names);
      assert forall i :: 0 <= i < |names| ==> names[i] in names;
      FindingsFrom(stack, names, f);
      if f.0 in stack {
        ReportedIsBroken(f.0, stack[f.0], f.1);
      }
    }
  }

  lemma {:induction false} FlattenFrom(reports: seq<seq<Finding>>, f: Finding)
    ensures f in Flatten(reports) <==> exists i :: 0 <= i < |reports| && f in reports[i]
  {
    if reports != [] {
      FlattenFrom(reports[..|reports| - 1], f);
    }
  }

  /** The full report lists exactly what is wrong with any of the stacks. */
  lemma FullReportIsExact(stacks: seq<Stack>, findings: seq<Finding>, f: Finding)
    requires IsFullReport(stacks, findings)
    ensures f in findings <==> exists i :: 0 <= i < |stacks| && Wrong(stacks[i], f)
  {
    hide Wrong, IsReport, Flatten;
    var reports: seq<seq<Finding>> :| ReportsOn(stacks, reports) && findings == Flatten(reports);
    FlattenFrom(reports, f);
    forall i | 0 <= i < |stacks| ensures f in reports[i] <==> Wrong(stacks[i], f) {
      ReportIsExact(stacks[i], reports[i], f);
    }
  }

  /** The printed findings and the exit status: 0 only if nothing was found and at least one
      bind mount was seen. */
  method Check(stacks: seq<Stack>) returns (status: int, findings: seq<Finding>)
    ensures IsFullReport(stacks, findings)
    ensures status == 0 || status == 1
    ensures status == 0 <==> Accepts(stacks)
  {
    hide StackOk, HasBind, IsReport;
    findings := [];
    ghost var reports: seq<seq<Finding>> := [];
    var binds := 0;
    for n := 0 to |stacks|
      invariant ReportsOn(stacks[..n], reports) && findings == Flatten(reports)
      invariant findings == [] <==> forall i :: 0 <= i < n ==> StackOk(stacks[i])
      invariant binds >= 0
      invariant binds > 0 <==> exists i :: 0 <= i < n && HasBind(stacks[i])
    {
      var found, checked, count := Inspect(stacks[n]);
      assert (reports + [found])[..n] == reports;
      reports := reports + [found];
      findings := findings + found;
      binds := binds + count;
    }
    assert stacks[..|stacks|] == stacks;
    if findings != [] {
      return 1, findings;
    }
    if binds == 0 {
      return 1, findings;
    }
    status := 0;
  }

  // ----- Order

  ghost predicate SameElements<T(!new)>(a: seq<T>, b: seq<T>) {
    forall x :: x in a <==> x in b
  }

  ghost predicate SameService(a: Service, b: Service) {
    && a.privileged == b.privileged && a.readOnly == b.readOnly && a.environment == b.environment
    && SameElements(a.securityOpt, b.securityOpt) && SameElements(a.capDrop, b.capDrop)
    && SameElements(a.volumes, b.volumes) && SameElements(a.ports, b.ports)
  }

  ghost predicate SameStack(a: Stack, b: Stack) {
    a.Keys == b.Keys && forall name :: name in a ==> SameService(a[name], b[name])
  }

  lemma SameServiceSameVerdict(name: string, a: Service, b: Service)
    requires SameService(a, b)
    ensures ServiceOk(name, a) ==> ServiceOk(name, b)
    ensures ServiceHasBind(a) <==> ServiceHasBind(b)
  {
    hide VolumeOk, PortOk, Receives;
    if DropsAll(a) {
      var i :| 0 <= i < |a.capDrop| && EqualFold(a.capDrop[i], "ALL");
      assert a.capDrop[i] in b.capDrop;
    }
    assert b.capDrop != [] ==> b.capDrop[0] in a.capDrop;
  }

  /** Every stack of `a` is in `b` too, up to the order of what is listed in it. */
  ghost predicate Within(a: seq<Stack>, b: seq<Stack>) {
    forall stack :: stack in a ==> HasSame(stack, b)
  }

  ghost predicate HasSame(stack: Stack, stacks: seq<Stack>) {
    exists other :: other in stacks && SameStack(stack, other)
  }

  lemma SameIsSymmetric(a: Stack, b: Stack)
    requires SameStack(a, b)
    ensures SameStack(b, a)
  {
  }

  lemma SameElsewhere(a: seq<Stack>, b: seq<Stack>, stack: Stack)
    requires Within(a, b) && stack in a
    ensures exists other :: other in b && StackOk(other) == StackOk(stack) && HasBind(other) == HasBind(stack)
  {
    hide StackOk, HasBind, SameStack;
    assert HasSame(stack, b);
    var other :| other in b && SameStack(stack, other);
    SameIsSymmetric(stack, other);
    SameStackSameVerdict(stack, other);
    SameStackSameVerdict(other, stack);
  }

  /** The order of stacks, of services and of anything listed in a service is irrelevant. */
  lemma VerdictIgnoresOrder(a: seq<Stack>, b: seq<Stack>)
    requires Within(a, b) && Within(b, a)
    ensures Accepts(a) <==> Accepts(b)
  {
    if Accepts(a) { AcceptsWithin(a, b); }
    if Accepts(b) { AcceptsWithin(b, a); }
  }

  lemma AcceptsWithin(a: seq<Stack>, b: seq<Stack>)
    requires Within(a, b) && Within(b, a) && Accepts(a)
    ensures Accepts(b)
  {
    hide StackOk, HasBind, Within;
    forall stack | stack in b ensures StackOk(stack) {
      SameElsewhere(b, a, stack);
    }
    var stack :| stack in a && HasBind(stack);
    SameElsewhere(a, b, stack);
  }

  lemma SameStackSameVerdict(a: Stack, b: Stack)
    requires SameStack(a, b)
    ensures StackOk(a) ==> StackOk(b)
    ensures HasBind(a) ==> HasBind(b)
  {
    forall name | name in a
      ensures ServiceOk(name, a[name]) ==> ServiceOk(name, b[name])
      ensures ServiceHasBind(a[name]) <==> ServiceHasBind(b[name])
    {
      SameServiceSameVerdict(name, a[name], b[name]);
    }
    if a != map[] {
      assert b.Keys != {};
    }
  }
}
