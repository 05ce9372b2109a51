/** The ConfigMap in which a feature reconciler keeps the settings it last applied. */
module FeatureValues {
  datatype Setting = Flag(on: bool) | Word(text: string)

  /** Missing, without `values.json`, holding text that does not decode to an object, holding the
      text `null`, or holding an object. */
  datatype Values = Missing | Blank | Corrupt | Null | Stored(settings: map<string, Setting>)

  /** What reading the values gives: an error, no map at all, or a map. */
  datatype Reading = Failing | Nil | Settings(settings: map<string, Setting>)

  /** `null` decodes without an error, into no map at all. */
  function Decoded(v: Values): Reading {
    match v
    case Corrupt => Failing
    case Null => Nil
    case _ => Settings(SettingsOf(v))
  }

  /** A reconcile gets no further than these values: it returns the error, or panics when it sets
      the first key of the missing map. */
  predicate Broken(v: Values) {
    v.Corrupt? || v.Null?
  }

  function SettingsOf(v: Values): map<string, Setting> {
    if v.Stored? then v.settings else map[]
  }
}

/** The virtualisation feature (internal/controller/virt_controller.go): the store it works on,
    what its steps do when every call succeeds, and what repeated reconciles lead to. */
module Virt {
  import opened Prelude
  import opened Json
  import opened FeatureValues
  import ConfigFile

  // ---------------------------------------------------------------- the store

  datatype Part =
    | KubeVirtNs | KubeVirtCrd | KubeVirtOperator | KubeVirtCr
    | CdiNs | CdiCrd | CdiOperator | CdiCr
    | ManagerNs | ManagerDeployment | ManagerCrd
    | DaemonSet

  const KUBEVIRT_PARTS: set<Part> := {KubeVirtNs, KubeVirtCrd, KubeVirtOperator, KubeVirtCr}
  const CDI_PARTS: set<Part> := {CdiNs, CdiCrd, CdiOperator, CdiCr}
  const MANAGER_PARTS: set<Part> := {ManagerNs, ManagerDeployment, ManagerCrd}
  const COMPONENTS: set<Part> := KUBEVIRT_PARTS + CDI_PARTS + MANAGER_PARTS
  const KINDS: set<Part> := {KubeVirtCrd, CdiCrd}

  /** The manifests fetched from the web, by the documents the reconciler depends on. */
  datatype Manifest = KubeVirtOperatorYaml | KubeVirtCrYaml | CdiOperatorYaml | CdiCrYaml | ManagerYaml | ManagerCrdYaml

  function Docs(m: Manifest): seq<Part> {
    match m
    case KubeVirtOperatorYaml => [KubeVirtNs, KubeVirtCrd, KubeVirtOperator]
    case KubeVirtCrYaml => [KubeVirtCr]
    case CdiOperatorYaml => [CdiNs, CdiCrd, CdiOperator]
    case CdiCrYaml => [CdiCr]
    case ManagerYaml => [ManagerNs, ManagerDeployment]
    case ManagerCrdYaml => [ManagerCrd]
  }

  /** A node: its capability label, and whether it has the device. */
  datatype Node = Node(kvmLabel: Option<string>, kvm: bool)

  /** The API objects (`parts` and the fields that belong to them) and the kinds that the client
      remembers although the server no longer serves them. */
  datatype Store = Store(
    parts: set<Part>, known: set<Part>,
    phase: Option<string>, emulation: Option<bool>,
    cdiPhase: Option<string>, cdiLimited: bool,
    replicas: Option<int>, nodes: seq<Node>, values: Values)

  /** No custom resource without its definition. */
  type Cluster = s: Store |
    (KubeVirtCr in s.parts ==> KubeVirtCrd in s.parts) && (CdiCr in s.parts ==> CdiCrd in s.parts)
    witness Store({}, {}, None, None, None, false, None, [], Missing)

  function KindOf(p: Part): Option<Part> {
    match p
    case KubeVirtCr => Some(KubeVirtCrd)
    case CdiCr => Some(CdiCrd)
    case _ => None
  }

  datatype Answer = Found | NotFound | NoMatch | Failed

  /** A kind that is not served is an error of its own, unless the client remembers it. */
  function Lookup(c: Cluster, p: Part): Answer {
    if p in c.parts then Found
    else if KindOf(p).Some? && KindOf(p).value !in c.parts + c.known then NoMatch
    else NotFound
  }

  predicate Servable(c: Cluster, p: Part) {
    KindOf(p).Some? ==> KindOf(p).value in c.parts
  }

  /** Creating or updating an object: the specification becomes the given one, the status stays
      that of the object, if there was one. */
  function Put(c: Cluster, p: Part): Cluster {
    if !Servable(c, p) then c else
    var parts := c.parts + {p};
    match p
    case KubeVirtCr => c.(parts := parts, phase := if p in c.parts then c.phase else None, emulation := None)
    case CdiCr => c.(parts := parts, cdiPhase := if p in c.parts then c.cdiPhase else None, cdiLimited := false)
    case ManagerDeployment => c.(parts := parts, replicas := if p in c.parts then c.replicas else None)
    case _ => c.(parts := parts)
  }

  function PutAll(c: Cluster, docs: seq<Part>): Cluster {
    if docs == [] then c else Put(PutAll(c, docs[..|docs| - 1]), docs[|docs| - 1])
  }

  /** Custom resources go with their definition, and the client remembers what it has looked up. */
  function Drop(c: Cluster, ps: set<Part>): Cluster {
    var orphans := (if KubeVirtCrd in ps then {KubeVirtCr} else {}) + (if CdiCrd in ps then {CdiCr} else {});
    c.(parts := c.parts - ps - orphans, known := c.known + c.parts * ps * KINDS)
  }

  lemma DropTwice(c: Cluster, a: set<Part>, b: set<Part>)
    ensures Drop(Drop(c, a), b) == Drop(c, a + b)
  {
    var twice, once := Drop(Drop(c, a), b), Drop(c, a + b);
    assert twice.parts == once.parts;
    assert twice.known == once.known;
  }

  /** Writing an object puts it there, with the status it had, if it was there before. */
  lemma PutLaw(c: Cluster, p: Part, q: Part)
    requires Servable(c, p)
    ensures var d := Put(c, p);
            && Lookup(d, p) == Found && (q in d.parts <==> q == p || q in c.parts)
            && (p in c.parts || (p != KubeVirtCr && p != CdiCr && p != ManagerDeployment) ==>
                  d.phase == c.phase && d.cdiPhase == c.cdiPhase && d.replicas == c.replicas)
            && (p !in c.parts ==>
                  && (p == KubeVirtCr ==> d.phase == None && d.cdiPhase == c.cdiPhase && d.replicas == c.replicas)
                  && (p == CdiCr ==> d.cdiPhase == None && d.phase == c.phase && d.replicas == c.replicas)
                  && (p == ManagerDeployment ==> d.replicas == None && d.phase == c.phase && d.cdiPhase == c.cdiPhase))
            && d.emulation == (if p == KubeVirtCr then None else c.emulation)
            && d.known == c.known && d.nodes == c.nodes && d.values == c.values
  {
  }

  /** Deleting removes the objects, the resources of the definitions among them, and no memory of a
      kind; what is deleted with its kind known is not found afterwards. */
  lemma DropLaw(c: Cluster, ps: set<Part>, q: Part)
    ensures var d := Drop(c, ps);
            && (q in d.parts <==> q in c.parts && q !in ps
                                  && !(q == KubeVirtCr && KubeVirtCrd in ps) && !(q == CdiCr && CdiCrd in ps))
            && d == c.(parts := d.parts, known := d.known) && c.known <= d.known
            && (q in ps && Lookup(c, q) != NoMatch ==> Lookup(d, q) == NotFound)
  {
  }

  // ---------------------------------------------------------------- waiting

  datatype Wait =
    | KubeVirtDeployed | CdiServed | CdiDeployed | ManagerReady | Gone(p: Part) | ChecksReady | NodesLabelled

  predicate KubeVirtUp(c: Cluster) {
    KubeVirtCr in c.parts && c.phase == Some("Deployed")
  }

  predicate CdiUp(c: Cluster) {
    CdiCr in c.parts && c.cdiPhase == Some("Deployed")
  }

  predicate ManagerUp(c: Cluster) {
    ManagerDeployment in c.parts && c.replicas.Some? && c.replicas.value > 0
  }

  predicate Installed(c: Cluster) {
    KubeVirtUp(c) && CdiUp(c) && ManagerUp(c)
  }

  /** Installed means all three: both resources deployed, and a manager with available replicas. */
  lemma InstalledMeans(c: Cluster)
    ensures Installed(c) <==>
              && KubeVirtCr in c.parts && c.phase == Some("Deployed")
              && CdiCr in c.parts && c.cdiPhase == Some("Deployed")
              && ManagerDeployment in c.parts && c.replicas.Some? && c.replicas.value > 0
  {
  }

  predicate Holds(c: Cluster, w: Wait) {
    match w
    case KubeVirtDeployed => KubeVirtUp(c)
    case CdiServed => CdiCrd in c.parts
    case CdiDeployed => CdiUp(c)
    case ManagerReady => ManagerUp(c)
    case Gone(p) => Lookup(c, p) == NotFound
    case ChecksReady => DaemonSet in c.parts && c.nodes != []
    case NodesLabelled => forall i :: 0 <= i < |c.nodes| ==> c.nodes[i].kvmLabel.Some?
  }

  function Labelled(nodes: seq<Node>): (r: seq<Node>)
    ensures |r| == |nodes|
    ensures forall i :: 0 <= i < |r| ==> r[i] == Node(Some(if nodes[i].kvm then "true" else "false"), nodes[i].kvm)
  {
    seq(|nodes|, i requires 0 <= i < |nodes| => Node(Some(if nodes[i].kvm then "true" else "false"), nodes[i].kvm))
  }

  /** What the operators, the deployment controller and the checking pods bring about. */
  function Settle(c: Cluster, w: Wait): Cluster {
    match w
    case KubeVirtDeployed =>
      if {KubeVirtCr, KubeVirtOperator} <= c.parts then c.(phase := Some("Deployed")) else c
    case CdiDeployed => if {CdiCr, CdiOperator} <= c.parts then c.(cdiPhase := Some("Deployed")) else c
    case ManagerReady => if ManagerDeployment in c.parts && !ManagerUp(c) then c.(replicas := Some(1)) else c
    case NodesLabelled => if DaemonSet in c.parts then c.(nodes := Labelled(c.nodes)) else c
    case _ => c
  }

  // ---------------------------------------------------------------- emulation

  predicate AnyLabelledTrue(nodes: seq<Node>) {
    exists i :: 0 <= i < |nodes| && nodes[i].kvmLabel == Some("true")
  }

  predicate AnyKvm(nodes: seq<Node>) {
    exists i :: 0 <= i < |nodes| && nodes[i].kvm
  }

  lemma LabelsTell(nodes: seq<Node>)
    ensures AnyLabelledTrue(Labelled(nodes)) <==> AnyKvm(nodes)
    ensures AnyKvm(Labelled(nodes)) <==> AnyKvm(nodes)
    ensures Labelled(Labelled(nodes)) == Labelled(nodes)
  {
    var l := Labelled(nodes);
    if i :| 0 <= i < |nodes| && nodes[i].kvm { assert l[i].kvmLabel == Some("true") && l[i].kvm; }
    if i :| 0 <= i < |l| && l[i].kvmLabel == Some("true") { assert nodes[i].kvm; }
    if i :| 0 <= i < |l| && l[i].kvm { assert nodes[i].kvm; }
  }

  /** The answer read off the labels. */
  predicate Needed(emulation: string, nodes: seq<Node>) {
    emulation == "true" || (emulation == "auto" && !AnyLabelledTrue(nodes))
  }

  /** The answer the setting asks for: emulate in automatic mode when no node has the device. */
  predicate Wanted(emulation: string, nodes: seq<Node>) {
    emulation == "true" || (emulation == "auto" && !AnyKvm(nodes))
  }

  predicate Emulates(c: Cluster) {
    c.emulation == Some(true)
  }

  function Emulated(c: Cluster, want: bool): Cluster {
    if Emulates(c) == want then c else c.(emulation := Some(want))
  }

  /** The capability check, when no call fails; without nodes it never becomes ready. */
  function Checked(c: Cluster): Cluster {
    if c.nodes == [] then Put(c, DaemonSet)
    else Drop(Settle(Put(c, DaemonSet), NodesLabelled), {DaemonSet})
  }

  lemma CheckedIs(c: Cluster)
    requires c.nodes != []
    ensures Checked(c) == c.(parts := c.parts - {DaemonSet}, nodes := Labelled(c.nodes))
  {
    var r := Checked(c);
    assert r.parts == c.parts - {DaemonSet};
    assert r.known == c.known;
  }

  // ---------------------------------------------------------------- installing and uninstalling

  function KubeVirtApplied(c: Cluster): Cluster {
    Settle(PutAll(PutAll(Put(c, KubeVirtNs), Docs(KubeVirtOperatorYaml)), Docs(KubeVirtCrYaml)), KubeVirtDeployed)
  }

  function CdiCleaned(c: Cluster): Cluster {
    Drop(c, CDI_PARTS)
  }

  function CdiInstalled(c: Cluster): Cluster {
    Settle(PutAll(PutAll(CdiCleaned(c), Docs(CdiOperatorYaml)), Docs(CdiCrYaml)), CdiDeployed).(cdiLimited := true)
  }

  function ManagerInstalled(c: Cluster): Cluster {
    var spaced := Put(Drop(c, {ManagerDeployment}), ManagerNs);
    Settle(PutAll(PutAll(spaced, Docs(ManagerYaml)), Docs(ManagerCrdYaml)), ManagerReady)
  }

  /** Installation always decides emulation by the check, whatever is configured. */
  function Install(c: Cluster): (Cluster, bool) {
    var k := Checked(KubeVirtApplied(c));
    if c.nodes == [] then (k, false)
    else (ManagerInstalled(CdiInstalled(EmulationChosen(k))), true)
  }

  lemma PutOne(c: Cluster, x: Part)
    ensures PutAll(c, [x]) == Put(c, x)
  {
    hide Put;
    assert [x][..0] == [];
  }

  lemma PutTwo(c: Cluster, x: Part, y: Part)
    ensures PutAll(c, [x, y]) == Put(Put(c, x), y)
  {
    PutOne(c, x);
    hide Put;
    assert [x, y][..1] == [x];
  }

  lemma PutThree(c: Cluster, x: Part, y: Part, z: Part)
    ensures PutAll(c, [x, y, z]) == Put(Put(Put(c, x), y), z)
  {
    PutTwo(c, x, y);
    hide Put;
    assert [x, y, z][..2] == [x, y];
  }

  lemma KubeVirtAppliedIs(c: Cluster)
    ensures KubeVirtApplied(c) == c.(parts := c.parts + KUBEVIRT_PARTS, phase := Some("Deployed"), emulation := None)
  {
    var n := Put(c, KubeVirtNs);
    PutThree(n, KubeVirtNs, KubeVirtCrd, KubeVirtOperator);
    PutOne(PutAll(n, Docs(KubeVirtOperatorYaml)), KubeVirtCr);
    hide PutAll;
    assert KubeVirtApplied(c).parts == c.parts + KUBEVIRT_PARTS;
  }

  lemma ThreeMore(parts: set<Part>, x: Part, y: Part, z: Part)
    ensures parts + {x} + {y} + {z} == parts + {x, y, z}
  {
  }

  lemma CdiCleanedIs(c: Cluster)
    ensures CdiCleaned(c) == c.(parts := c.parts - CDI_PARTS, known := c.known + c.parts * {CdiCrd})
  {
    assert CdiCleaned(c).parts == c.parts - CDI_PARTS;
    assert CdiCleaned(c).known == c.known + c.parts * {CdiCrd};
  }

  lemma CdiInstalledIs(c: Cluster)
    ensures CdiInstalled(c) == c.(parts := c.parts + CDI_PARTS, known := c.known + c.parts * {CdiCrd},
                                  cdiPhase := Some("Deployed"), cdiLimited := true)
  {
    var n := CdiCleaned(c);
    CdiCleanedIs(c);
    hide CdiCleaned;
    PutThree(n, CdiNs, CdiCrd, CdiOperator);
    var m := n.(parts := n.parts + {CdiNs, CdiCrd, CdiOperator});
    ThreeMore(n.parts, CdiNs, CdiCrd, CdiOperator);
    PutOne(m, CdiCr);
    hide PutAll;
    assert PutAll(n, Docs(CdiOperatorYaml)) == m;
    hide Docs;
    assert m.parts + {CdiCr} == c.parts + CDI_PARTS;
  }

  lemma ManagerCleared(c: Cluster)
    ensures Put(Drop(c, {ManagerDeployment}), ManagerNs) == c.(parts := c.parts - {ManagerDeployment} + {ManagerNs})
  {
    var n := Drop(c, {ManagerDeployment});
    assert n.parts == c.parts - {ManagerDeployment};
    assert n.known == c.known;
  }

  lemma PutPlain(c: Cluster, p: Part)
    requires KindOf(p).None? && p != ManagerDeployment
    ensures Put(c, p) == c.(parts := c.parts + {p})
  {
  }

  lemma PutDeployment(c: Cluster)
    requires ManagerDeployment !in c.parts
    ensures Put(c, ManagerDeployment) == c.(parts := c.parts + {ManagerDeployment}, replicas := None)
  {
  }

  lemma ManagerApplied(c: Cluster)
    requires ManagerDeployment !in c.parts
    ensures PutAll(PutAll(c, Docs(ManagerYaml)), Docs(ManagerCrdYaml))
         == c.(parts := c.parts + MANAGER_PARTS, replicas := None)
  {
    var n := c.(parts := c.parts + {ManagerNs});
    var m := n.(parts := n.parts + {ManagerDeployment}, replicas := None);
    var r := m.(parts := m.parts + {ManagerCrd});
    assert PutAll(c, Docs(ManagerYaml)) == m by {
      PutPlain(c, ManagerNs);
      PutDeployment(n);
      PutTwo(c, ManagerNs, ManagerDeployment);
      hide PutAll, Put, Servable;
    }
    assert PutAll(m, Docs(ManagerCrdYaml)) == r by {
      PutPlain(m, ManagerCrd);
      PutOne(m, ManagerCrd);
      hide PutAll, Put, Servable;
    }
    hide *;
    ThreeMore(c.parts, ManagerNs, ManagerDeployment, ManagerCrd);
  }

  lemma ManagerInstalledIs(c: Cluster)
    ensures ManagerInstalled(c) == c.(parts := c.parts + MANAGER_PARTS, replicas := Some(1))
  {
    var n := c.(parts := c.parts - {ManagerDeployment} + {ManagerNs});
    ManagerCleared(c);
    ManagerApplied(n);
    hide PutAll, Drop, Put;
    assert n.parts + MANAGER_PARTS == c.parts + MANAGER_PARTS;
  }

  /** The part of the installation between KubeVirt and CDI. */
  function EmulationChosen(k: Cluster): Cluster {
    if Needed("auto", k.nodes) then Emulated(k, true) else k
  }

  lemma EmulationChosenIs(c: Cluster)
    requires c.nodes != []
    ensures EmulationChosen(Checked(KubeVirtApplied(c)))
         == c.(parts := c.parts + KUBEVIRT_PARTS - {DaemonSet}, phase := Some("Deployed"),
               emulation := if AnyKvm(c.nodes) then None else Some(true), nodes := Labelled(c.nodes))
  {
    KubeVirtAppliedIs(c);
    CheckedIs(KubeVirtApplied(c));
    LabelsTell(c.nodes);
    hide KubeVirtApplied, Checked, AnyKvm, AnyLabelledTrue;
  }

  lemma PartsAdded(p: set<Part>)
    ensures p + KUBEVIRT_PARTS - {DaemonSet} + CDI_PARTS + MANAGER_PARTS == p + COMPONENTS - {DaemonSet}
    ensures (p + KUBEVIRT_PARTS - {DaemonSet}) * {CdiCrd} == p * {CdiCrd}
  {
  }

  /** One installation forgets everything about the components that was there before. */
  lemma InstallIs(c: Cluster)
    requires c.nodes != []
    ensures Install(c) == (c.(parts := c.parts + COMPONENTS - {DaemonSet}, known := c.known + c.parts * {CdiCrd},
                              phase := Some("Deployed"), emulation := if AnyKvm(c.nodes) then None else Some(true),
                              cdiPhase := Some("Deployed"), cdiLimited := true,
                              replicas := Some(1), nodes := Labelled(c.nodes)), true)
  {
    var e := EmulationChosen(Checked(KubeVirtApplied(c)));
    assert Install(c) == (ManagerInstalled(CdiInstalled(e)), true);
    EmulationChosenIs(c);
    CdiInstalledIs(e);
    ManagerInstalledIs(CdiInstalled(e));
    PartsAdded(c.parts);
    hide KubeVirtApplied, Checked, CdiInstalled, ManagerInstalled, EmulationChosen, AnyKvm, Install;
  }

  /** Without nodes the capability check never gets ready, and installation ends there. */
  lemma InstallWithoutNodes(c: Cluster)
    requires c.nodes == []
    ensures Install(c) == (c.(parts := c.parts + KUBEVIRT_PARTS + {DaemonSet}, phase := Some("Deployed"),
                              emulation := None), false)
  {
    KubeVirtAppliedIs(c);
    hide KubeVirtApplied;
  }

  /** What uninstalling removes; a CDI kind the client does not know stops that part early. */
  function Removable(c: Cluster): set<Part> {
    if Lookup(c, CdiCr) == NoMatch then COMPONENTS - {CdiNs, CdiCrd, CdiOperator} else COMPONENTS
  }

  // ---------------------------------------------------------------- one reconcile

  /** What the configuration asks for. */
  datatype Wish = Nothing | Unreadable | Managed(enabled: bool, emulation: string)

  /** The ConfigMap may be missing, lack the key, or hold text that does not decode. */
  function WishOf(data: Option<Option<Json>>): Wish {
    if data.None? || data.value.None? then Nothing
    else match ConfigFile.Unmarshal(data.value.value)
      case None => Unreadable
      case Some(config) =>
        var virt := config.features.virt;
        if virt.managed != "true" then Nothing else Managed(virt.enabled == "true", virt.emulation)
  }

  function Updated(v: Values, wish: Wish): Values
    requires wish.Managed? && !Broken(v)
  {
    Stored(SettingsOf(v)["enabled" := Flag(wish.enabled)]["managed" := Flag(true)]["emulation" := Word(wish.emulation)])
  }

  lemma UpdatedTwice(v: Values, wish: Wish)
    requires wish.Managed? && !Broken(v)
    ensures Updated(Updated(v, wish), wish) == Updated(v, wish)
  {
  }

  datatype Verdict = Done | Requeue | Error

  /** `Reconcile` when no call fails. */
  function Reconciled(c: Cluster, wish: Wish): (Cluster, Verdict) {
    if wish.Nothing? then (c, Done)
    else if wish.Unreadable? || Broken(c.values) || Lookup(c, KubeVirtCr) == NoMatch then (c, Error)
    else if wish.enabled then
      if !Installed(c) then
        var (d, ok) := Install(c);
        (d, if ok then Requeue else Error)
      else
        var k := if wish.emulation == "auto" then Checked(c) else c;
        if wish.emulation == "auto" && c.nodes == [] then (k, Error)
        else (Emulated(k, Needed(wish.emulation, k.nodes)).(values := Updated(c.values, wish)), Done)
    else if Installed(c) then (Drop(c.(values := Updated(c.values, wish)), COMPONENTS), Requeue)
    else (Drop(c, {KubeVirtNs}), Done)
  }

  function Calls(c: Cluster, wish: Wish, n: nat): Cluster {
    if n == 0 then c else Reconciled(Calls(c, wish, n - 1), wish).0
  }

  /** Once a call changes nothing, no later one does. */
  lemma {:induction false} FixedPointStays(c: Cluster, wish: Wish, m: nat, n: nat)
    requires m <= n && Reconciled(Calls(c, wish, m), wish).0 == Calls(c, wish, m)
    ensures Calls(c, wish, n) == Calls(c, wish, m)
    decreases n
  {
    hide Reconciled;
    if m < n { FixedPointStays(c, wish, m, n - 1); }
  }

  // ---------------------------------------------------------------- self-stabilisation

  /** Nothing is left to do: installed, emulation as configured, values saved, and a further call
      changes nothing. */
  predicate Settled(c: Cluster, wish: Wish)
    requires wish.Managed?
  {
    && Installed(c) && Emulates(c) == Wanted(wish.emulation, c.nodes)
    && !Broken(c.values) && c.values == Updated(c.values, wish)
    && Reconciled(c, wish) == (c, Done)
  }

  /** From here the reconciler gets there by itself. */
  predicate Recoverable(c: Cluster, emulation: string) {
    && !Broken(c.values) && KubeVirtCrd in c.parts + c.known
    && (c.nodes != [] || (emulation != "auto" && CdiUp(c) && ManagerUp(c)))
  }

  lemma OnceInstalled(c: Cluster, wish: Wish)
    requires wish.Managed? && wish.enabled && Installed(c) && Recoverable(c, wish.emulation)
    ensures Reconciled(c, wish).1 == Done && Settled(Reconciled(c, wish).0, wish)
  {
    var d := Reconciled(c, wish).0;
    UpdatedTwice(c.values, wish);
    hide Updated, Install, Removable, Drop;
    if wish.emulation == "auto" {
      CheckedIs(c);
      LabelsTell(c.nodes);
      hide Checked, AnyKvm, AnyLabelledTrue;
      assert d.nodes == Labelled(c.nodes) && DaemonSet !in d.parts && !Broken(d.values);
      assert Installed(d) && Emulates(d) == Wanted(wish.emulation, d.nodes);
      CheckedIs(d);
      assert Checked(d) == d;
      hide Broken, Lookup;
      assert Reconciled(d, wish) == (d, Done);
    } else {
      hide Checked, AnyKvm, AnyLabelledTrue;
    }
  }

  lemma OneInstallation(c: Cluster, wish: Wish)
    requires wish.Managed? && wish.enabled && !Installed(c) && Recoverable(c, wish.emulation)
    ensures Installed(Reconciled(c, wish).0) && Recoverable(Reconciled(c, wish).0, wish.emulation)
  {
    hide Updated, Removable, Drop, AnyKvm;
    if c.nodes != [] {
      InstallIs(c);
      hide Install;
    } else {
      InstallWithoutNodes(c);
      hide Install;
    }
  }

  /** From any store two calls suffice, if and only if some number of calls does. */
  lemma {:induction false} StabilisesInTwo(c: Cluster, wish: Wish, n: nat)
    requires wish.Managed? && wish.enabled
    ensures Recoverable(c, wish.emulation) && n >= 2 ==>
              Settled(Calls(c, wish, n), wish) && Calls(c, wish, n) == Calls(c, wish, 2)
    ensures !Recoverable(c, wish.emulation) ==> Reconciled(Calls(c, wish, n), wish).1 != Done
  {
    if Recoverable(c, wish.emulation) {
      var one := Reconciled(c, wish).0;
      assert Calls(c, wish, 0) == c && Calls(c, wish, 1) == one;
      assert Calls(c, wish, 2) == Reconciled(one, wish).0;
      if Installed(c) {
        OnceInstalled(c, wish);
      } else {
        OneInstallation(c, wish);
        OnceInstalled(one, wish);
      }
      if n >= 2 { FixedPointStays(c, wish, 2, n); }
    } else {
      StaysStuck(c, wish, n);
    }
  }

  lemma {:induction false} StaysStuck(c: Cluster, wish: Wish, n: nat)
    requires wish.Managed? && wish.enabled && !Recoverable(c, wish.emulation)
    ensures !Recoverable(Calls(c, wish, n), wish.emulation)
    ensures Reconciled(Calls(c, wish, n), wish).1 != Done
  {
    hide Recoverable, Reconciled;
    if n > 0 {
      StaysStuck(c, wish, n - 1);
      StuckStep(Calls(c, wish, n - 1), wish);
    }
    StuckStep(Calls(c, wish, n), wish);
  }

  lemma StuckStep(c: Cluster, wish: Wish)
    requires wish.Managed? && wish.enabled && !Recoverable(c, wish.emulation)
    ensures !Recoverable(Reconciled(c, wish).0, wish.emulation) && Reconciled(c, wish).1 != Done
  {
    if !Broken(c.values) && Lookup(c, KubeVirtCr) != NoMatch {
      assert c.nodes == [];
      if !Installed(c) {
        InstallWithoutNodes(c);
        hide Install;
      }
    }
  }

  // ---------------------------------------------------------------- switching off

  /** Disabled, the machine is at rest after two calls, and then nothing of Virt is left if and
      only if all of it was installed, or nothing but the namespace was there. With unreadable
      values or an unknown kind it fails for ever and changes nothing. */
  lemma DisabledComesToRest(c: Cluster, wish: Wish, n: nat)
    requires wish.Managed? && !wish.enabled && n >= 2
    ensures !Broken(c.values) && Lookup(c, KubeVirtCr) != NoMatch ==>
              && Calls(c, wish, n) == Calls(c, wish, 2)
              && Reconciled(Calls(c, wish, n), wish) == (Calls(c, wish, n), Done)
              && KubeVirtNs !in Calls(c, wish, n).parts
              && (Calls(c, wish, n).parts !! COMPONENTS <==> Installed(c) || c.parts * COMPONENTS <= {KubeVirtNs})
              && Calls(c, wish, n).values == (if Installed(c) then Updated(c.values, wish) else c.values)
              && Calls(c, wish, n).parts - COMPONENTS == c.parts - COMPONENTS
    ensures Broken(c.values) || Lookup(c, KubeVirtCr) == NoMatch ==>
              Calls(c, wish, n) == c && Reconciled(c, wish) == (c, Error)
  {
    assert Calls(c, wish, 0) == c;
    if Broken(c.values) || Lookup(c, KubeVirtCr) == NoMatch {
      FixedPointStays(c, wish, 0, n);
    } else {
      var one := Reconciled(c, wish).0;
      assert Calls(c, wish, 1) == one && Calls(c, wish, 2) == Reconciled(one, wish).0;
      RestStep(c, wish);
      FixedPointStays(c, wish, 1, 2);
      FixedPointStays(c, wish, 1, n);
    }
  }

  lemma RestStep(c: Cluster, wish: Wish)
    requires wish.Managed? && !wish.enabled
    requires !Broken(c.values) && Lookup(c, KubeVirtCr) != NoMatch
    ensures var one := Reconciled(c, wish).0;
            && Reconciled(one, wish) == (one, Done) && KubeVirtNs !in one.parts
            && one.values == (if Installed(c) then Updated(c.values, wish) else c.values)
            && one.parts - COMPONENTS == c.parts - COMPONENTS
            && (one.parts !! COMPONENTS <==> Installed(c) || c.parts * COMPONENTS <= {KubeVirtNs})
  {
    var one := Reconciled(c, wish).0;
    if Installed(c) {
      assert one.parts == c.parts - COMPONENTS;
      assert KubeVirtCrd in one.known;
      assert Drop(one, {KubeVirtNs}).parts == one.parts;
      assert Drop(one, {KubeVirtNs}).known == one.known;
    } else {
      assert one.parts == c.parts - {KubeVirtNs};
      assert one.known == c.known;
      assert Drop(one, {KubeVirtNs}).parts == one.parts;
      assert Drop(one, {KubeVirtNs}).known == one.known;
      if one.parts !! COMPONENTS {
        forall p | p in c.parts * COMPONENTS ensures p == KubeVirtNs { assert p !in one.parts; }
      }
    }
  }

  lemma UnknownKindIsAnError(c: Cluster, wish: Wish)
    requires wish.Managed? && Lookup(c, KubeVirtCr) == NoMatch
    ensures Reconciled(c, wish) == (c, Error)
  {
  }

  /** A new process remembers no kind. */
  function Restarted(c: Cluster): Cluster {
    c.(known := {})
  }

  /** After an uninstallation the same process can install again; a new one never can. */
  lemma UninstalledThenRestarted(c: Cluster, off: Wish, on: Wish, n: nat)
    requires off.Managed? && !off.enabled && on.Managed? && on.enabled
    requires Installed(c) && !Broken(c.values) && c.nodes != []
    ensures var gone := Calls(c, off, 2);
            && Settled(Calls(gone, on, 2), on)
            && Reconciled(Calls(Restarted(gone), on, n), on).1 != Done
            && Reconciled(Restarted(gone), on) == (Restarted(gone), Error)
            && Reconciled(Restarted(gone), off) == (Restarted(gone), Error)
  {
    var one := Reconciled(c, off).0;
    assert Calls(c, off, 0) == c && Calls(c, off, 1) == one && Calls(c, off, 2) == Reconciled(one, off).0;
    RestStep(c, off);
    assert KubeVirtCrd in one.known && KubeVirtCrd !in one.parts && KubeVirtCr !in one.parts;
    assert one.nodes != [] && !Broken(one.values);
    hide Settled, Calls, Reconciled, Updated;
    assert Recoverable(one, on.emulation) && !Recoverable(Restarted(one), on.emulation);
    assert Lookup(Restarted(one), KubeVirtCr) == NoMatch;
    UnknownKindIsAnError(Restarted(one), on);
    UnknownKindIsAnError(Restarted(one), off);
    StabilisesInTwo(one, on, 2);
    StabilisesInTwo(Restarted(one), on, n);
  }
}
