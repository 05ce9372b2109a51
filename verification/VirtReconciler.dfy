/** The reconciler of the virtualisation feature, call by call, against an API server that may
    refuse any of them. */
module VirtReconciler {
  import opened Prelude
  import opened Json
  import opened FeatureValues
  import opened Virt

  /** A poll of a wait finds the change it waits for, finds that it has not happened yet, or is
      refused. */
  datatype Outcome = Answered | Slow | Refused

  /** What the server does: the numbers of the calls it refuses, and the outcomes of the polls of
      each wait, told apart by the number of calls made before it. */
  datatype Faults = Faults(refused: iset<nat>, polls: (Wait, nat, nat) -> Outcome)

  /** How many polls the timeout of a wait leaves room for. */
  function Budget(w: Wait): nat {
    match w
    case KubeVirtDeployed => 120
    case CdiServed => 24
    case CdiDeployed => 60
    case ManagerReady => 24
    case ChecksReady => 24
    case NodesLabelled => 12
    case Gone(KubeVirtCr) => 36
    case Gone(ManagerDeployment) => 15
    case Gone(_) => 2
  }

  /** Waits whose polls return an error when they are refused; the others only log it. */
  predicate Strict(w: Wait) {
    w.ManagerReady? || w.ChecksReady? || w.NodesLabelled?
  }

  /** The wait begun after `k` calls has an answered poll within its budget, and no refusal before it
      ends the wait. */
  ghost predicate Reached(f: Faults, w: Wait, k: nat) {
    exists t :: 0 <= t < Budget(w) && AnsweredAt(f, w, k, t)
  }

  ghost predicate AnsweredAt(f: Faults, w: Wait, k: nat, t: nat) {
    f.polls(w, k, t).Answered? && (Strict(w) ==> forall u: nat :: u < t ==> !f.polls(w, k, u).Refused?)
  }

  lemma AnsweredNow(f: Faults, w: Wait, k: nat, t: nat)
    requires Strict(w) ==> forall u: nat :: u < t ==> !f.polls(w, k, u).Refused?
    ensures AnsweredAt(f, w, k, t) <==> f.polls(w, k, t).Answered?
  {
  }

  lemma NoneLater(f: Faults, w: Wait, k: nat, t: nat)
    requires Strict(w) && f.polls(w, k, t).Refused?
    ensures forall u: nat :: AnsweredAt(f, w, k, u) ==> u < t
  {
  }

  /** From one number of calls to another every call is answered, and every wait for something to
      get ready has its answered poll in time. Waits for something to go may fail. */
  ghost predicate Smooth(f: Faults, from: nat, to: nat) {
    && Answers(f, from, to)
    && (forall w: Wait, k: nat :: from <= k <= to && !w.Gone? ==> Reached(f, w, k))
  }

  /** What an installation, or the check, removes before it puts it there again. */
  const REINSTALLED: set<Part> := CDI_PARTS + {ManagerDeployment, DaemonSet}

  /** Nodes stay, and no kind is forgotten. */
  predicate Remembers(a: Cluster, b: Cluster) {
    a.known <= b.known && a.parts * KINDS <= b.parts + b.known && |a.nodes| == |b.nodes|
  }

  /** Only `ps` and what belongs to them differ, nothing is missing but what gets reinstalled, and no
      kind is forgotten. */
  predicate Within(a: Cluster, b: Cluster, ps: set<Part>) {
    && a.parts - ps == b.parts - ps && a.parts - ps * REINSTALLED <= b.parts
    && Remembers(a, b) && a.values == b.values
    && (KubeVirtCr !in ps ==> a.phase == b.phase && a.emulation == b.emulation)
    && (CdiCr !in ps ==> a.cdiPhase == b.cdiPhase && a.cdiLimited == b.cdiLimited)
    && (ManagerDeployment !in ps ==> a.replicas == b.replicas)
    && (DaemonSet !in ps ==> a.nodes == b.nodes)
  }

  lemma WithinMore(a: Cluster, b: Cluster, ps: set<Part>, d: Cluster, qs: set<Part>, rs: set<Part>)
    requires Within(a, b, ps) && Within(b, d, qs) && ps <= rs && qs <= rs
    ensures Within(a, d, rs)
  {
    assert a.parts - rs == d.parts - rs by {
      assert forall p | p !in rs :: p in a.parts <==> p in a.parts - ps;
      assert forall p | p !in rs :: p in b.parts <==> p in b.parts - ps;
      assert forall p | p !in rs :: p in b.parts <==> p in b.parts - qs;
      assert forall p | p !in rs :: p in d.parts <==> p in d.parts - qs;
    }
  }

  lemma DropWithin(c: Cluster, ps: set<Part>, qs: set<Part>)
    requires ps <= qs * REINSTALLED && (CdiCrd in ps ==> CdiCr in qs)
    ensures Within(c, Drop(c, ps), qs)
  {
  }

  lemma PutWithin(c: Cluster, p: Part, qs: set<Part>)
    requires p in qs
    ensures Within(c, Put(c, p), qs) && c.parts <= Put(c, p).parts
  {
  }

  lemma {:induction false} PutAllWithin(c: Cluster, docs: seq<Part>, qs: set<Part>)
    requires forall p :: p in docs ==> p in qs
    ensures Within(c, PutAll(c, docs), qs) && c.parts <= PutAll(c, docs).parts
  {
    if docs != [] {
      var m := PutAll(c, docs[..|docs| - 1]);
      PutAllWithin(c, docs[..|docs| - 1], qs);
      PutWithin(m, docs[|docs| - 1], qs);
      WithinMore(c, m, qs, PutAll(c, docs), qs, qs);
    }
  }

  lemma SettleWithin(c: Cluster, w: Wait, qs: set<Part>)
    requires match w
      case KubeVirtDeployed => KubeVirtCr in qs
      case CdiDeployed => CdiCr in qs
      case ManagerReady => ManagerDeployment in qs
      case NodesLabelled => DaemonSet in qs
      case _ => true
    ensures Within(c, Settle(c, w), qs)
  {
  }

  lemma SettleTwice(c: Cluster, w: Wait)
    ensures Settle(Settle(c, w), w) == Settle(c, w)
  {
    LabelsTell(c.nodes);
  }

  lemma DropAbsent(c: Cluster, p: Part)
    requires p !in c.parts
    ensures Drop(c, {p}) == c
  {
    assert Drop(c, {p}).parts == c.parts;
    assert Drop(c, {p}).known == c.known;
  }

  /** Call number `k` is refused. */
  predicate Refuses(f: Faults, k: nat) {
    k in f.refused
  }

  /** The calls from one number up to another are all answered. */
  predicate Answers(f: Faults, from: nat, to: nat) {
    forall j :: from <= j < to ==> !Refuses(f, j)
  }

  // ---------------------------------------------------------------- what an uninstallation deletes

  /** The documents whose deletion, from call `k` on one after the other, is not refused. */
  function Deleted(f: Faults, docs: seq<Part>, k: nat): set<Part> {
    set i | 0 <= i < |docs| && !Refuses(f, k + i) :: docs[i]
  }

  /** Deleting a manifest that is fetched with call `k`, and the first call after it. */
  function ManifestGone(f: Faults, m: Manifest, k: nat): set<Part> {
    if Refuses(f, k) then {} else Deleted(f, Docs(m), k + 1)
  }

  function ManifestEnd(f: Faults, m: Manifest, k: nat): nat {
    if Refuses(f, k) then k + 1 else k + 1 + |Docs(m)|
  }

  /** A manifest whose version is looked up first, with call `k`. */
  function LatestGone(f: Faults, m: Manifest, k: nat): set<Part> {
    if Refuses(f, k) then {} else ManifestGone(f, m, k + 1)
  }

  function LatestEnd(f: Faults, m: Manifest, k: nat): nat {
    if Refuses(f, k) then k + 1 else ManifestEnd(f, m, k + 1)
  }

  /** One object, deleted with call `k`. */
  function OneDeleted(f: Faults, p: Part, k: nat): set<Part> {
    if Refuses(f, k) then {} else {p}
  }

  function ManagerGone(f: Faults, k: nat): set<Part> {
    ManifestGone(f, ManagerYaml, k) + ManifestGone(f, ManagerCrdYaml, ManifestEnd(f, ManagerYaml, k))
  }

  function ManagerEnd(f: Faults, k: nat): nat {
    ManifestEnd(f, ManagerCrdYaml, ManifestEnd(f, ManagerYaml, k))
  }

  /** The operator of CDI is only reached when the deletion of the resource was answered, and its
      kind known. */
  function CdiGone(f: Faults, known: bool, k: nat): set<Part> {
    OneDeleted(f, CdiCr, k)
    + (if Refuses(f, k) || !known then {} else LatestGone(f, CdiOperatorYaml, k + 1))
  }

  function CdiEnd(f: Faults, known: bool, k: nat): nat {
    if Refuses(f, k) || !known then k + 1 else LatestEnd(f, CdiOperatorYaml, k + 1)
  }

  /** The resource, the operator, and last the namespace. */
  function KubeVirtGone(f: Faults, k: nat): set<Part> {
    OneDeleted(f, KubeVirtCr, k) + LatestGone(f, KubeVirtOperatorYaml, k + 1)
    + OneDeleted(f, KubeVirtNs, LatestEnd(f, KubeVirtOperatorYaml, k + 1))
  }

  /** All three parts, the first call being number `k`. */
  function VirtGone(f: Faults, known: bool, k: nat): set<Part> {
    var cdi := ManagerEnd(f, k);
    ManagerGone(f, k) + CdiGone(f, known, cdi) + KubeVirtGone(f, CdiEnd(f, known, cdi))
  }

  /** The number of the last call, the deletion of the namespace. */
  function LastDeletion(f: Faults, known: bool, k: nat): nat {
    LatestEnd(f, KubeVirtOperatorYaml, CdiEnd(f, known, ManagerEnd(f, k)) + 1)
  }

  /** Nothing else is touched, and without a refusal during the uninstallation nothing stays but the
      operator of a CDI whose kind the client does not know. */
  lemma NothingRefusedNothingLeft(f: Faults, known: bool, k: nat)
    ensures VirtGone(f, known, k) <= COMPONENTS
    ensures Answers(f, k, LastDeletion(f, known, k) + 1) ==>
              VirtGone(f, known, k) == if known then COMPONENTS else COMPONENTS - {CdiNs, CdiCrd, CdiOperator}
  {
    hide Refuses;
    AllDeleted(f, ManagerYaml);
    AllDeleted(f, ManagerCrdYaml);
    AllDeleted(f, CdiOperatorYaml);
    AllDeleted(f, KubeVirtOperatorYaml);
    DocSets();
    hide Deleted, DocSet;
  }

  /** A removal only depends on its own calls, whatever is refused elsewhere: each of the three
      parts goes when its own calls are answered, and the two resources and the namespace each go
      with their own call. */
  lemma RefusalsStayLocal(f: Faults, known: bool, k: nat)
    ensures var cdi := ManagerEnd(f, k); var kubevirt := CdiEnd(f, known, cdi);
            var last := LastDeletion(f, known, k); var gone := VirtGone(f, known, k);
            && (Answers(f, k, cdi) ==> MANAGER_PARTS <= gone)
            && (known && Answers(f, cdi, kubevirt) ==> CDI_PARTS <= gone)
            && (Answers(f, kubevirt, last + 1) ==> KUBEVIRT_PARTS <= gone)
            && (!Refuses(f, cdi) ==> CdiCr in gone)
            && (!Refuses(f, kubevirt) ==> KubeVirtCr in gone)
            && (!Refuses(f, last) ==> KubeVirtNs in gone)
  {
    hide Refuses;
    AllDeleted(f, ManagerYaml);
    AllDeleted(f, ManagerCrdYaml);
    AllDeleted(f, CdiOperatorYaml);
    AllDeleted(f, KubeVirtOperatorYaml);
    DocSets();
    hide Deleted, DocSet;
  }

  lemma AllDeleted(f: Faults, m: Manifest)
    ensures forall k: nat :: Deleted(f, Docs(m), k) <= DocSet(m)
    ensures forall k: nat :: (forall i :: k <= i < k + |Docs(m)| ==> !Refuses(f, i)) ==>
              Deleted(f, Docs(m), k) == DocSet(m)
  {
    hide Refuses, Docs;
    forall k: nat | forall i :: k <= i < k + |Docs(m)| ==> !Refuses(f, i)
      ensures Deleted(f, Docs(m), k) == DocSet(m)
    {
      forall p | p in DocSet(m) ensures p in Deleted(f, Docs(m), k) {
        var i :| 0 <= i < |Docs(m)| && Docs(m)[i] == p;
        assert !Refuses(f, k + i);
      }
    }
  }

  lemma ManifestWithin(f: Faults, m: Manifest, k: nat)
    ensures ManifestGone(f, m, k) <= DocSet(m)
    ensures Answers(f, k, k + 1 + |Docs(m)|) ==> ManifestGone(f, m, k) == DocSet(m)
  {
    AllDeleted(f, m);
    hide Deleted, Docs;
  }

  function DocSet(m: Manifest): set<Part> {
    set p | p in Docs(m)
  }

  /** How many of the three components are looked at before it is clear whether Virt is installed. */
  function Looks(c: Cluster): nat {
    if !KubeVirtUp(c) then 1 else if !CdiUp(c) then 2 else 3
  }

  // ---------------------------------------------------------------- what a cleanup of CDI deletes

  /** The first call after the resource is dealt with: where it was found but is not seen to go, an
      update and a second deletion follow the first. */
  ghost function CleanupVersion(f: Faults, before: Answer, k: nat): nat {
    if !Refuses(f, k) && before == Found && !Reached(f, Gone(CdiCr), k + 1) then k + 3 else k + 1
  }

  ghost function CleanupEnd(f: Faults, before: Answer, k: nat): nat {
    LatestEnd(f, CdiOperatorYaml, CleanupVersion(f, before, k)) + 1
  }

  ghost function CleanupGone(f: Faults, before: Answer, k: nat): set<Part> {
    var v := CleanupVersion(f, before, k);
    OneDeleted(f, CdiCr, k) + LatestGone(f, CdiOperatorYaml, v)
    + OneDeleted(f, CdiNs, LatestEnd(f, CdiOperatorYaml, v))
  }

  /** A cleanup only concerns CDI, and removes all of it when its calls are answered. */
  lemma CleanupCovers(f: Faults, c: Cluster, k: nat)
    ensures var before := Lookup(c, CdiCr);
            && CleanupGone(f, before, k) <= CDI_PARTS
            && (Answers(f, k, CleanupEnd(f, before, k)) ==> Drop(c, CleanupGone(f, before, k)) == CdiCleaned(c))
            && k < CleanupEnd(f, before, k)
  {
    var before := Lookup(c, CdiCr);
    var v := CleanupVersion(f, before, k);
    hide Refuses, Reached, Lookup, CleanupVersion;
    ManifestWithin(f, CdiOperatorYaml, v + 1);
    DocSets();
    assert k < v by { VersionLater(f, before, k); }
    hide DocSet, Drop, ManifestGone;
    if Answers(f, k, CleanupEnd(f, before, k)) {
      assert Answers(f, v + 1, v + 2 + |Docs(CdiOperatorYaml)|);
      assert CleanupGone(f, before, k) == CDI_PARTS;
    }
  }

  lemma VersionLater(f: Faults, before: Answer, k: nat)
    ensures k < CleanupVersion(f, before, k)
  {
  }

  /** What is deleted is seen to be gone by the first answered poll. */
  lemma GoneIsSeen(c: Cluster)
    requires CdiCr in c.parts
    ensures Holds(Drop(c, {CdiCr}), Gone(CdiCr))
  {
  }

  class Reconciler {
    var c: Cluster
    const faults: Faults
    /** The number of calls made so far; polls are not counted. */
    var calls: nat

    constructor (c: Cluster, faults: Faults)
      ensures this.c == c && this.faults == faults && calls == 0
    {
      this.c := c;
      this.faults := faults;
      this.calls := 0;
    }

    // ---------------------------------------------------------------- single calls

    method Call() returns (answered: bool)
      modifies this`calls
      ensures calls == old(calls) + 1
      ensures answered <==> !Refuses(faults, old(calls))
    {
      answered := calls !in faults.refused;
      calls := calls + 1;
    }

    method Read(p: Part) returns (a: Answer)
      modifies this`calls
      ensures calls == old(calls) + 1
      ensures a == if Refuses(faults, old(calls)) then Failed else Lookup(c, p)
    {
      var answered := Call();
      return if answered then Lookup(c, p) else Failed;
    }

    method Write(p: Part) returns (ok: bool)
      modifies this
      ensures calls == old(calls) + 1
      ensures ok <==> !Refuses(faults, old(calls)) && Servable(old(c), p)
      ensures c == if ok then Put(old(c), p) else old(c)
    {
      var answered := Call();
      if !answered || !Servable(c, p) { return false; }
      c := Put(c, p);
      return true;
    }

    method Delete(p: Part) returns (a: Answer)
      modifies this
      ensures calls == old(calls) + 1
      ensures a == if Refuses(faults, old(calls)) then Failed else Lookup(old(c), p)
      ensures c == if a == Failed then old(c) else Drop(old(c), {p})
    {
      var answered := Call();
      if !answered { return Failed; }
      a := Lookup(c, p);
      if a == Found {
        c := Drop(c, {p});
      } else {
        DropAbsent(c, p);
      }
    }

    /** Polls until the condition is seen or the budget is used up; a refusal only ends strict waits.
        An answered poll finds the cluster settled, and the wait succeeds if that is what it waits for. */
    method Poll(w: Wait) returns (ok: bool)
      modifies this`c
      ensures c == if Reached(faults, w, calls) then Settle(old(c), w) else old(c)
      ensures ok <==> Reached(faults, w, calls) && Holds(Settle(old(c), w), w)
    {
      hide Settle, Holds, Budget, Strict, AnsweredAt;
      SettleTwice(c, w);
      ghost var k := calls;
      ghost var answered := false;
      var t := 0;
      while t < Budget(w)
        invariant t <= Budget(w)
        invariant !answered ==> forall u: nat :: u < t ==> !AnsweredAt(faults, w, k, u)
        invariant answered ==> exists u: nat :: u < t && AnsweredAt(faults, w, k, u)
        invariant c == if answered then Settle(old(c), w) else old(c)
        invariant answered ==> !Holds(c, w)
        invariant Strict(w) ==> forall u: nat :: u < t ==> !faults.polls(w, k, u).Refused?
      {
        var o := faults.polls(w, calls, t);
        AnsweredNow(faults, w, k, t);
        if o.Answered? {
          answered := true;
          c := Settle(c, w);
          if Holds(c, w) { return true; }
        } else if o.Refused? && Strict(w) {
          NoneLater(faults, w, k, t);
          return false;
        }
        t := t + 1;
      }
      return false;
    }

    // ---------------------------------------------------------------- manifests

    method CreateOrUpdateResource(p: Part) returns (ok: bool)
      modifies this
      ensures old(calls) < calls <= old(calls) + 2 && (ok ==> calls == old(calls) + 2)
      ensures ok <==> Servable(old(c), p) && Answers(faults, old(calls), old(calls) + 2)
      ensures ok <==> Servable(old(c), p) && Answers(faults, old(calls), calls)
      ensures c == if ok then Put(old(c), p) else old(c)
    {
      var a := Read(p);
      if a == Failed || a == NoMatch { return false; }
      ok := Write(p);
    }

    method EnsureNamespace(p: Part) returns (ok: bool)
      requires KindOf(p).None? && p != ManagerDeployment
      modifies this
      ensures old(calls) < calls <= old(calls) + 2
      ensures c == if ok then Put(old(c), p) else old(c)
      ensures ok <==> Answers(faults, old(calls), calls)
    {
      var a := Read(p);
      if a == Found {
        assert Put(c, p) == c by { assert c.parts + {p} == c.parts; }
        return true;
      }
      if a != NotFound { return false; }
      ok := Write(p);
    }

    /** `n` documents take effect. */
    method ApplyYAMLFromURL(m: Manifest) returns (ok: bool, ghost n: nat)
      modifies this
      ensures old(calls) < calls <= old(calls) + 1 + 2 * |Docs(m)|
      ensures n <= |Docs(m)| && c == PutAll(old(c), Docs(m)[..n])
      ensures ok ==> c == PutAll(old(c), Docs(m))
      ensures Answers(faults, old(calls), calls) && (forall p :: p in Docs(m) ==> Servable(old(c), p)) ==> ok
    {
      hide Put, Docs, Refuses;
      n := 0;
      var answered := Call();
      if !answered { return false, 0; }
      var docs := Docs(m);
      var i := 0;
      while i < |docs|
        invariant i <= |docs| && old(calls) < calls <= old(calls) + 1 + 2 * i
        invariant c == PutAll(old(c), docs[..i])
      {
        PutAllWithin(old(c), docs[..i], set p | p in docs[..i]);
        assert docs[..i + 1][..i] == docs[..i];
        assert docs[i] in Docs(m) && (Servable(old(c), docs[i]) ==> Servable(c, docs[i]));
        ok := CreateOrUpdateResource(docs[i]);
        if !ok { return false, i; }
        i := i + 1;
      }
      assert docs[..i] == docs;
      return true, i;
    }

    /** The documents are deleted one by one whatever happens to the earlier ones: exactly those
        whose own call is not refused go. */
    method DeleteYAMLFromURL(m: Manifest)
      modifies this
      ensures calls == ManifestEnd(faults, m, old(calls))
      ensures c == Drop(old(c), ManifestGone(faults, m, old(calls)))
    {
      hide Drop, Refuses, Docs, Lookup;
      DropNothing(c);
      var answered := Call();
      if !answered { return; }
      var docs := Docs(m);
      var i := 0;
      assert Deleted(faults, docs[..0], calls) == {};
      while i < |docs|
        invariant i <= |docs| && calls == old(calls) + 1 + i
        invariant c == Drop(old(c), Deleted(faults, docs[..i], old(calls) + 1))
      {
        ghost var gone := Deleted(faults, docs[..i], old(calls) + 1);
        DeletedMore(faults, docs, old(calls) + 1, i);
        LookupAnswers(c, docs[i]);
        var a := Delete(docs[i]);
        DropTwice(old(c), gone, {docs[i]});
        i := i + 1;
      }
      assert docs[..i] == docs;
    }

    // ---------------------------------------------------------------- emulation

    /** Without a refused deletion the checking pods are gone, and they are left running only when
        every node was seen labelled. */
    method RunKVMCheckAndLabelNodes() returns (ok: bool)
      modifies this
      ensures old(calls) <= calls && Within(old(c), c, {DaemonSet})
      ensures ok ==> c.nodes != [] && (DaemonSet !in c.parts || Holds(c, NodesLabelled))
      ensures var k := old(calls);
              ok <==> Answers(faults, k, k + 2) && Reached(faults, ChecksReady, k + 2) && c.nodes != []
                      && (!Refuses(faults, k + 2) || Reached(faults, NodesLabelled, k + 2))
      ensures Smooth(faults, old(calls), calls) ==> c == Checked(old(c)) && ok == (c.nodes != [])
    {
      PutWithin(c, DaemonSet, {DaemonSet});
      ok := CreateOrUpdateResource(DaemonSet);
      if !ok { return false; }
      ok := Poll(ChecksReady);
      if !ok { return false; }
      ghost var b := c;
      SettleWithin(c, NodesLabelled, {DaemonSet});
      var labelled := Poll(NodesLabelled);
      WithinMore(old(c), b, {DaemonSet}, c, {DaemonSet}, {DaemonSet});
      b := c;
      DropWithin(c, {DaemonSet}, {DaemonSet});
      var d := Delete(DaemonSet);
      WithinMore(old(c), b, {DaemonSet}, c, {DaemonSet}, {DaemonSet});
      return d != Failed || labelled;
    }

    method CheckEmulationNeeded(emulation: string) returns (need: bool, ok: bool)
      modifies this
      ensures old(calls) <= calls && Within(old(c), c, {DaemonSet})
      ensures ok ==> need == Needed(emulation, c.nodes)
      ensures ok && emulation == "auto" ==> c.nodes != [] && (DaemonSet !in c.parts || Holds(c, NodesLabelled))
      ensures emulation != "auto" ==> ok && c == old(c)
      ensures Smooth(faults, old(calls), calls) ==>
                && c == (if emulation == "auto" then Checked(old(c)) else old(c))
                && ok == (emulation != "auto" || c.nodes != [])
    {
      hide Within, Checked;
      WithinItself(c, {DaemonSet});
      if emulation == "true" { return true, true; }
      if emulation == "false" { return false, true; }
      if emulation == "auto" {
        ok := RunKVMCheckAndLabelNodes();
        if !ok { return true, false; }
        var answered := Call();
        if !answered { return true, false; }
        var i := 0;
        while i < |c.nodes|
          invariant i <= |c.nodes|
          invariant forall j :: 0 <= j < i ==> c.nodes[j].kvmLabel != Some("true")
        {
          if c.nodes[i].kvmLabel.Some? && c.nodes[i].kvmLabel.value == "true" { return false, true; }
          i := i + 1;
        }
        return true, true;
      }
      return false, true;
    }

    /** The resource is written if and only if the effective setting differs. */
    method UpdateEmulationSetting(use: bool) returns (ok: bool, wrote: bool)
      modifies this`c, this`calls
      ensures old(calls) <= calls
      ensures c == if wrote then old(c).(emulation := Some(use)) else old(c)
      ensures ok ==> KubeVirtCr in c.parts && wrote == (Emulates(old(c)) != use)
      ensures ok ==> c == Emulated(old(c), use) && Emulates(c) == use
      ensures Smooth(faults, old(calls), calls) ==> ok == (KubeVirtCr in c.parts)
    {
      var a := Read(KubeVirtCr);
      if a != Found { return false, false; }
      var found, current := c.emulation.Some?, c.emulation.Some? && c.emulation.value;
      if (found && current == use) || (!found && !use) { return true, false; }
      var answered := Call();
      if !answered { return false, false; }
      c := c.(emulation := Some(use));
      return true, true;
    }

    // ---------------------------------------------------------------- installing

    /** Cleaning up never fails, and exactly what it could not delete stays. */
    method CleanupCDIResources()
      modifies this
      ensures calls == CleanupEnd(faults, Lookup(old(c), CdiCr), old(calls))
      ensures c == Drop(old(c), CleanupGone(faults, Lookup(old(c), CdiCr), old(calls)))
    {
      NothingToSettle(CdiCr);
      NothingToSettle(CdiNs);
      hide Drop, Within, Settle, Holds, ManifestGone, ManifestEnd, Refuses, Reached;
      DropNothing(c);
      LookupAnswers(c, CdiCr);
      ghost var before, k := Lookup(c, CdiCr), calls;
      ghost var gone := OneDeleted(faults, CdiCr, k);
      var a := Delete(CdiCr);
      if a == Found {
        GoneIsSeen(old(c));
        var seen := Poll(Gone(CdiCr));
        if !seen {
          var answered := Call();
          DropTwice(old(c), gone, {CdiCr});
          LookupAnswers(c, CdiCr);
          a := Delete(CdiCr);
        }
      }
      assert c == Drop(old(c), gone) by { assert gone + {CdiCr} == {CdiCr}; }
      assert calls == CleanupVersion(faults, before, k);
      ghost var v := calls;
      assert gone + {} == gone;
      var version := Call();
      if version {
        DropTwice(old(c), gone, ManifestGone(faults, CdiOperatorYaml, calls));
        DeleteYAMLFromURL(CdiOperatorYaml);
      }
      gone := gone + LatestGone(faults, CdiOperatorYaml, v);
      assert gone + {} == gone;
      DropTwice(old(c), gone, {CdiNs});
      LookupAnswers(c, CdiNs);
      a := Delete(CdiNs);
      var seen := Poll(Gone(CdiNs));
    }

    method PatchCDI() returns (ok: bool)
      modifies this`c, this`calls
      ensures calls == old(calls) + 1
      ensures ok <==> !Refuses(faults, old(calls)) && CdiCr in c.parts
      ensures c == if ok then old(c).(cdiLimited := true) else old(c)
    {
      var answered := Call();
      if !answered || CdiCr !in c.parts { return false; }
      c := c.(cdiLimited := true);
      return true;
    }

    /** Trouble while cleaning up does not matter: from then on smoothness is enough. */
    method InstallCDI() returns (ok: bool)
      modifies this
      ensures old(calls) <= calls && Within(old(c), c, CDI_PARTS)
      ensures ok ==> CdiUp(c) && c.cdiLimited
      ensures Smooth(faults, CleanupEnd(faults, Lookup(old(c), CdiCr), old(calls)), calls) ==> ok
      ensures Smooth(faults, old(calls), calls) ==> ok && c == CdiInstalled(old(c))
    {
      CdiInstalledIs(c);
      CleanupCovers(faults, c, calls);
      ghost var k := calls;
      hide Drop, Within, PutAll, Lookup, Put, CdiCleaned, CleanupEnd, CleanupGone;
      CleanupCDIResources();
      DropWithin(old(c), CleanupGone(faults, Lookup(old(c), CdiCr), k), CDI_PARTS);
      CdiSteps(c);
      ghost var b := c;
      var version := Call();
      if !version { return false; }
      ghost var n;
      ok, n := ApplyYAMLFromURL(CdiOperatorYaml);
      PutAllWithin(b, Docs(CdiOperatorYaml)[..n], CDI_PARTS);
      WithinMore(old(c), b, CDI_PARTS, c, CDI_PARTS, CDI_PARTS);
      if !ok { return false; }
      ok := Poll(CdiServed);
      if !ok { return false; }
      b := c;
      ok, n := ApplyYAMLFromURL(CdiCrYaml);
      PutAllWithin(b, Docs(CdiCrYaml)[..n], CDI_PARTS);
      WithinMore(old(c), b, CDI_PARTS, c, CDI_PARTS, CDI_PARTS);
      if !ok { return false; }
      b := c;
      ok := Poll(CdiDeployed);
      SettleWithin(b, CdiDeployed, CDI_PARTS);
      WithinItself(b, CDI_PARTS);
      WithinMore(old(c), b, CDI_PARTS, c, CDI_PARTS, CDI_PARTS);
      if !ok { return false; }
      b := c;
      ok := PatchCDI();
      PatchWithin(b);
      WithinItself(b, CDI_PARTS);
      WithinMore(old(c), b, CDI_PARTS, c, CDI_PARTS, CDI_PARTS);
    }

    /** `InstallKubeVirtManager`, up to an earlier deployment being gone. */
    method DeleteOldDeployment() returns (ok: bool)
      modifies this
      ensures old(calls) <= calls && Within(old(c), c, MANAGER_PARTS)
      ensures ok ==> c == Drop(old(c), {ManagerDeployment})
      ensures Smooth(faults, old(calls), calls) ==> ok
    {
      NothingToSettle(ManagerDeployment);
      hide Drop, Within, Settle;
      WithinItself(c, MANAGER_PARTS);
      var a := Read(ManagerDeployment);
      if a == Found {
        DropWithin(c, {ManagerDeployment}, MANAGER_PARTS);
        a := Delete(ManagerDeployment);
        if a != Found { return false; }
        var seen := Poll(Gone(ManagerDeployment));
        return true;
      }
      if a != NotFound { return false; }
      DropAbsent(c, ManagerDeployment);
      return true;
    }

    method InstallKubeVirtManager() returns (ok: bool)
      modifies this
      ensures old(calls) <= calls && Within(old(c), c, MANAGER_PARTS)
      ensures ok ==> ManagerUp(c)
      ensures Smooth(faults, old(calls), calls) ==> ok && c == ManagerInstalled(old(c))
    {
      ManagerSteps(c);
      hide Drop, Within, PutAll, Put, Settle, Lookup;
      ok := DeleteOldDeployment();
      if !ok { return false; }
      ghost var b := c;
      ok := EnsureNamespace(ManagerNs);
      PutWithin(b, ManagerNs, MANAGER_PARTS);
      if !ok { return false; }
      WithinMore(old(c), b, MANAGER_PARTS, c, MANAGER_PARTS, MANAGER_PARTS);
      b := c;
      ghost var n;
      ok, n := ApplyYAMLFromURL(ManagerYaml);
      PutAllWithin(b, Docs(ManagerYaml)[..n], MANAGER_PARTS);
      WithinMore(old(c), b, MANAGER_PARTS, c, MANAGER_PARTS, MANAGER_PARTS);
      if !ok { return false; }
      b := c;
      ok, n := ApplyYAMLFromURL(ManagerCrdYaml);
      PutAllWithin(b, Docs(ManagerCrdYaml)[..n], MANAGER_PARTS);
      WithinMore(old(c), b, MANAGER_PARTS, c, MANAGER_PARTS, MANAGER_PARTS);
      if !ok { return false; }
      b := c;
      ok := Poll(ManagerReady);
      SettleWithin(b, ManagerReady, MANAGER_PARTS);
      WithinItself(b, MANAGER_PARTS);
      WithinMore(old(c), b, MANAGER_PARTS, c, MANAGER_PARTS, MANAGER_PARTS);
    }

    /** `InstallVirtComponents`, up to KubeVirt being ready. */
    method InstallKubeVirt() returns (ok: bool)
      modifies this
      ensures old(calls) <= calls && Within(old(c), c, EVERYTHING)
      ensures ok ==> KubeVirtUp(c) && c.emulation == None
      ensures Smooth(faults, old(calls), calls) ==> ok && c == KubeVirtApplied(old(c))
    {
      KubeVirtSteps(c);
      hide Drop, Within, PutAll, Put, Settle, Lookup;
      ghost var b := c;
      ok := EnsureNamespace(KubeVirtNs);
      PutWithin(b, KubeVirtNs, EVERYTHING);
      WithinItself(b, EVERYTHING);
      if !ok { return false; }
      var version := Call();
      if !version { return false; }
      b := c;
      ghost var n;
      ok, n := ApplyYAMLFromURL(KubeVirtOperatorYaml);
      PutAllWithin(b, Docs(KubeVirtOperatorYaml)[..n], EVERYTHING);
      WithinMore(old(c), b, EVERYTHING, c, EVERYTHING, EVERYTHING);
      if !ok { return false; }
      b := c;
      ok, n := ApplyYAMLFromURL(KubeVirtCrYaml);
      PutAllWithin(b, Docs(KubeVirtCrYaml)[..n], EVERYTHING);
      WithinMore(old(c), b, EVERYTHING, c, EVERYTHING, EVERYTHING);
      if !ok { return false; }
      b := c;
      ok := Poll(KubeVirtDeployed);
      SettleWithin(b, KubeVirtDeployed, EVERYTHING);
      WithinItself(b, EVERYTHING);
      WithinMore(old(c), b, EVERYTHING, c, EVERYTHING, EVERYTHING);
    }

    /** `InstallVirtComponents`, between KubeVirt being ready and CDI. */
    method ConfigureEmulation() returns (ok: bool)
      requires KubeVirtUp(c) && c.emulation == None
      modifies this
      ensures old(calls) <= calls && Within(old(c), c, EVERYTHING)
      ensures ok ==> KubeVirtUp(c) && Emulates(c) == Needed("auto", c.nodes)
      ensures Smooth(faults, old(calls), calls) ==>
                && ok == (old(c).nodes != [])
                && c == if ok then EmulationChosen(Checked(old(c))) else Checked(old(c))
    {
      hide Within, Checked, Needed, Holds;
      var need;
      need, ok := CheckEmulationNeeded("auto");
      ghost var b := c;
      WithinItself(b, EVERYTHING);
      WithinMore(old(c), b, {DaemonSet}, b, EVERYTHING, EVERYTHING);
      KubeVirtStaysUp(old(c), b, {DaemonSet});
      SameNodes(old(c), b, {DaemonSet});
      if !ok || !need { return; }
      ghost var wrote;
      ok, wrote := UpdateEmulationSetting(true);
      EmulatedWithin(b, true);
      WithinMore(old(c), b, EVERYTHING, c, EVERYTHING, EVERYTHING);
    }

    /** On success all three components are up and emulation follows the node labels. */
    method InstallVirtComponents() returns (ok: bool)
      modifies this
      ensures old(calls) <= calls && Within(old(c), c, EVERYTHING)
      ensures ok ==> Installed(c) && Emulates(c) == Needed("auto", c.nodes)
      ensures Smooth(faults, old(calls), calls) ==> (c, ok) == Install(old(c))
    {
      KubeVirtSteps(c);
      hide Within, KubeVirtApplied, CdiInstalled, ManagerInstalled, Checked, EmulationChosen, Needed, Reached, Refuses,
           CleanupEnd, Lookup;
      ok := InstallKubeVirt();
      if !ok { return false; }
      ghost var b := c;
      ok := ConfigureEmulation();
      WithinMore(old(c), b, EVERYTHING, c, EVERYTHING, EVERYTHING);
      if !ok { return false; }
      b := c;
      ok := InstallCDI();
      WithinMore(old(c), b, EVERYTHING, c, CDI_PARTS, EVERYTHING);
      KubeVirtStaysUp(b, c, CDI_PARTS);
      if !ok { return false; }
      b := c;
      ok := InstallKubeVirtManager();
      WithinMore(old(c), b, EVERYTHING, c, MANAGER_PARTS, EVERYTHING);
      KubeVirtStaysUp(b, c, MANAGER_PARTS);
      CdiStaysUp(b, c, MANAGER_PARTS);
    }

    /** A refused check is an error, and so is a KubeVirt kind that the client does not know; an
        unknown CDI kind only means that it is not installed. */
    method IsVirtInstalled() returns (installed: bool, ok: bool)
      modifies this`calls
      ensures old(calls) < calls
      ensures Refuses(faults, old(calls)) ==> !ok
      ensures ok ==> calls == old(calls) + Looks(c)
      ensures ok ==> installed == Installed(c) && Lookup(c, KubeVirtCr) != NoMatch
      ensures Smooth(faults, old(calls), calls) ==> ok == (Lookup(c, KubeVirtCr) != NoMatch)
    {
      var a := Read(KubeVirtCr);
      if a == NotFound { return false, true; }
      if a != Found { return false, false; }
      if c.phase.None? || c.phase.value != "Deployed" { return false, true; }
      a := Read(CdiCr);
      if a == NoMatch || a == NotFound { return false, true; }
      if a != Found { return false, false; }
      if c.cdiPhase.None? || c.cdiPhase.value != "Deployed" { return false, true; }
      a := Read(ManagerDeployment);
      if a == NotFound { return false, true; }
      if a != Found { return false, false; }
      if c.replicas.None? { return false, true; }
      return c.replicas.value > 0, true;
    }

    // ---------------------------------------------------------------- uninstalling

    /** A refused or unknown CDI resource ends this part before the operator. */
    method UninstallCDI()
      modifies this
      ensures calls == CdiEnd(faults, Lookup(old(c), CdiCr) != NoMatch, old(calls))
      ensures c == Drop(old(c), CdiGone(faults, Lookup(old(c), CdiCr) != NoMatch, old(calls)))
    {
      hide Drop, Refuses, ManifestGone, ManifestEnd;
      DropNothing(c);
      LookupAnswers(c, CdiCr);
      ghost var first := OneDeleted(faults, CdiCr, calls);
      var a := Delete(CdiCr);
      assert first + {} == first;
      if a == Failed || a == NoMatch { return; }
      var version := Call();
      if !version { return; }
      DropTwice(old(c), first, ManifestGone(faults, CdiOperatorYaml, calls));
      DeleteYAMLFromURL(CdiOperatorYaml);
    }

    method UninstallKubeVirtManager()
      modifies this
      ensures calls == ManagerEnd(faults, old(calls))
      ensures c == Drop(old(c), ManagerGone(faults, old(calls)))
    {
      hide Drop, Refuses, ManifestGone, ManifestEnd;
      ghost var first := ManifestGone(faults, ManagerYaml, calls);
      DeleteYAMLFromURL(ManagerYaml);
      DropTwice(old(c), first, ManifestGone(faults, ManagerCrdYaml, calls));
      DeleteYAMLFromURL(ManagerCrdYaml);
    }

    /** `UninstallVirtComponents`, after the manager and CDI. */
    method UninstallKubeVirt() returns (ok: bool)
      modifies this
      ensures calls == LatestEnd(faults, KubeVirtOperatorYaml, old(calls) + 1) + 1
      ensures c == Drop(old(c), KubeVirtGone(faults, old(calls)))
      ensures ok <==> !Refuses(faults, calls - 1)
    {
      NothingToSettle(KubeVirtCr);
      hide Drop, Refuses, ManifestGone, ManifestEnd, Settle, Holds, Reached;
      DropNothing(c);
      ghost var gone := OneDeleted(faults, KubeVirtCr, calls);
      var a := Delete(KubeVirtCr);
      var seen := Poll(Gone(KubeVirtCr));
      ghost var v := calls;
      var version := Call();
      if version {
        DropTwice(old(c), gone, ManifestGone(faults, KubeVirtOperatorYaml, calls));
        DeleteYAMLFromURL(KubeVirtOperatorYaml);
      }
      assert gone + {} == gone;
      gone := gone + LatestGone(faults, KubeVirtOperatorYaml, v);
      assert gone + {} == gone;
      DropTwice(old(c), gone, {KubeVirtNs});
      LookupAnswers(c, KubeVirtNs);
      var last := Delete(KubeVirtNs);
      return last != Failed;
    }

    /** Every removal is attempted whatever becomes of the others, but for the documents of manifests
        that cannot be fetched and the operator of a CDI whose resource was not deleted: exactly
        what `VirtGone` counts as not refused disappears. The only failure is a refusal of the last
        call, the deletion of the namespace. */
    method UninstallVirtComponents() returns (ok: bool)
      modifies this
      ensures calls == LastDeletion(faults, Lookup(old(c), CdiCr) != NoMatch, old(calls)) + 1
      ensures old(calls) <= calls
      ensures c == Drop(old(c), VirtGone(faults, Lookup(old(c), CdiCr) != NoMatch, old(calls)))
      ensures ok <==> !Refuses(faults, calls - 1)
      ensures Answers(faults, old(calls), calls) ==> c == Drop(old(c), Removable(old(c)))
    {
      hide Drop, ManagerGone, CdiGone, KubeVirtGone, LatestGone, ManifestGone;
      ghost var k, known := calls, Lookup(c, CdiCr) != NoMatch;
      UninstallKubeVirtManager();
      ManagerLeavesCdi(old(c), faults, k);
      UninstallCDI();
      ghost var cdi := ManagerEnd(faults, k);
      DropTwice(old(c), ManagerGone(faults, k), CdiGone(faults, known, cdi));
      ok := UninstallKubeVirt();
      DropTwice(old(c), ManagerGone(faults, k) + CdiGone(faults, known, cdi),
                KubeVirtGone(faults, CdiEnd(faults, known, cdi)));
      NothingRefusedNothingLeft(faults, known, k);
    }

    // ---------------------------------------------------------------- values

    method GetValues() returns (values: Reading)
      modifies this`calls
      ensures calls == old(calls) + 1
      ensures values == if Refuses(faults, old(calls)) then Failing else Decoded(c.values)
    {
      var answered := Call();
      if !answered || c.values.Corrupt? { return Failing; }
      if c.values.Null? { return Nil; }
      return Settings(if c.values.Stored? then c.values.settings else map[]);
    }

    method SaveValues(values: map<string, Setting>) returns (ok: bool)
      modifies this`c, this`calls
      ensures old(calls) < calls
      ensures ok <==> !Refuses(faults, old(calls)) && !Refuses(faults, old(calls) + 1)
      ensures c == if ok then old(c).(values := Stored(values)) else old(c)
      ensures Smooth(faults, old(calls), calls) ==> ok
    {
      var answered := Call();
      if !answered { return false; }
      answered := Call();
      if !answered { return false; }
      c := c.(values := Stored(values));
      return true;
    }

    // ---------------------------------------------------------------- reconciling

    /** A refused look at the namespace passes for its absence. */
    method IsNamespacePresent() returns (present: bool)
      modifies this`calls
      ensures calls == old(calls) + 1
      ensures present <==> !Refuses(faults, old(calls)) && KubeVirtNs in c.parts
    {
      var a := Read(KubeVirtNs);
      LookupAnswers(c, KubeVirtNs);
      return a == Found;
    }

    /** The branch of `Reconcile` for an enabled feature. */
    method KeepInstalled(wish: Wish, values: map<string, Setting>) returns (verdict: Verdict)
      requires wish.Managed? && wish.enabled
      requires !Broken(c.values) && Stored(values) == Updated(c.values, wish)
      modifies this
      ensures old(calls) <= calls
      ensures Smooth(faults, old(calls), calls) ==> (c, verdict) == Reconciled(old(c), wish)
      ensures Honest(old(c), c, wish, verdict)
    {
      hide Within, Needed, Install, Checked, Emulated, Drop, Removable, Updated;
      WithinItself(c, EVERYTHING);
      var installed, ok := IsVirtInstalled();
      if !ok { return Error; }
      if !installed {
        ok := InstallVirtComponents();
        InstallHonest(old(c), c, wish);
        return if ok then Requeue else Error;
      }
      verdict := KeepEmulation(wish, values);
    }

    /** The part of it for a feature that is installed. */
    method KeepEmulation(wish: Wish, values: map<string, Setting>) returns (verdict: Verdict)
      requires wish.Managed? && wish.enabled && Installed(c) && Lookup(c, KubeVirtCr) != NoMatch
      requires !Broken(c.values) && Stored(values) == Updated(c.values, wish)
      modifies this
      ensures old(calls) <= calls
      ensures Smooth(faults, old(calls), calls) ==> (c, verdict) == Reconciled(old(c), wish)
      ensures Honest(old(c), c, wish, verdict)
    {
      InstalledReconcile(c, wish);
      hide Within, Needed, Checked, Updated, Holds, Installed, Reconciled, Reached, Refuses, Honest, Lookup;
      var need, ok := CheckEmulationNeeded(wish.emulation);
      ghost var b := c;
      LabelsOnly(old(c), b, wish);
      if !ok { return Error; }
      ghost var wrote;
      ok, wrote := UpdateEmulationSetting(need);
      EmulationOnly(old(c), b, Some(need), wish);
      if !ok { return Error; }
      b := c;
      ok := SaveValues(values);
      AllKept(old(c), b, wish, need);
      return if ok then Done else Error;
    }

    /** The branch of `Reconcile` for a feature that is not enabled. */
    method KeepRemoved(wish: Wish, values: map<string, Setting>) returns (verdict: Verdict)
      requires wish.Managed? && !wish.enabled
      requires !Broken(c.values) && Stored(values) == Updated(c.values, wish)
      modifies this
      ensures old(calls) < calls
      ensures Smooth(faults, old(calls), calls) ==> (c, verdict) == Reconciled(old(c), wish)
      ensures Honest(old(c), c, wish, verdict)
      ensures verdict == Done ==>
                (KubeVirtNs in c.parts <==> KubeVirtNs in old(c).parts && Refuses(faults, old(calls) + Looks(old(c))))
    {
      RemovableValues(c);
      InstalledIsRemovable(c);
      RefusedIsHonest(c, wish);
      hide Within, Removable, Updated, Install, Checked, Reached, VirtGone, LastDeletion, Honest, Broken;
      var installed, ok := IsVirtInstalled();
      if !ok { return Error; }
      if installed {
        ok := SaveValues(values);
        if !ok { return Error; }
        ghost var known, k := Lookup(c, CdiCr) != NoMatch, calls;
        ok := UninstallVirtComponents();
        NothingRefusedNothingLeft(faults, known, k);
        SavedAndDropped(old(c), VirtGone(faults, known, k), wish);
        return if ok then Requeue else Error;
      }
      NamespaceDropped(c, wish);
      var present := IsNamespacePresent();
      if present {
        var a := Delete(KubeVirtNs);
        if a != Found { return Error; }
      } else if KubeVirtNs !in c.parts {
        DropAbsent(c, KubeVirtNs);
      }
      return Done;
    }

    /** One call, whatever the server does with its requests. */
    method Reconcile(data: Option<Option<Json>>) returns (verdict: Verdict)
      modifies this
      ensures old(calls) < calls
      ensures Smooth(faults, old(calls), calls) ==> (c, verdict) == Reconciled(old(c), WishOf(data))
      ensures Refuses(faults, old(calls)) || (WishOf(data).Managed? && Refuses(faults, old(calls) + 1)) ==>
                verdict == Error && c == old(c)
      ensures WishOf(data).Managed? && !WishOf(data).enabled && verdict == Done ==>
                (KubeVirtNs in c.parts <==>
                   KubeVirtNs in old(c).parts && Refuses(faults, old(calls) + 2 + Looks(old(c))))
      ensures if WishOf(data).Managed? then Honest(old(c), c, WishOf(data), verdict) else c == old(c)
    {
      hide WishOf, Honest, Reconciled, Updated, SettingsOf;
      var wish := WishOf(data);
      if wish.Managed? { RefusedIsHonest(c, wish); }
      RefusedAtOnce(c, wish);
      var answered := Call();
      if !answered { return Error; }
      if wish.Nothing? { return Done; }
      if wish.Unreadable? { return Error; }
      var read := GetValues();
      if read.Failing? { return Error; }
      // The first assignment to the missing map panics; the runtime turns that into an error.
      if read.Nil? { return Error; }
      var values := read.settings["enabled" := Flag(wish.enabled)];
      values := values["managed" := Flag(true)]["emulation" := Word(wish.emulation)];
      UpdatedIs(c.values, wish);
      if wish.enabled {
        verdict := KeepInstalled(wish, values);
      } else {
        verdict := KeepRemoved(wish, values);
      }
    }

    /** However the server and the configuration behave for a while: if the feature is wanted and the
        two reconciles that begin after `start` calls go smoothly, they complete it. */
    method Converge(before: seq<Option<Option<Json>>>, data: Option<Option<Json>>) returns (ghost start: nat)
      requires !Broken(c.values) && KubeVirtCrd in c.parts + c.known && c.nodes != []
      requires WishOf(data).Managed? && WishOf(data).enabled
      modifies this
      ensures old(calls) <= start <= calls
      ensures Smooth(faults, start, calls) ==> Settled(c, WishOf(data))
    {
      hide Honest, WishOf, Reconciled, Settled;
      ghost var wish := WishOf(data);
      var i := 0;
      while i < |before|
        invariant i <= |before| && old(calls) <= calls
        invariant !Broken(c.values) && KubeVirtCrd in c.parts + c.known && c.nodes != []
      {
        ghost var b := c;
        var v := Reconcile(before[i]);
        if WishOf(before[i]).Managed? { StillRecoverable(b, c, WishOf(before[i]), v); }
        i := i + 1;
      }
      start := calls;
      ghost var b := c;
      StabilisesInTwo(b, wish, 2);
      TwoCalls(b, wish);
      var v := Reconcile(data);
      v := Reconcile(data);
    }
  }

  lemma TwoCalls(c: Cluster, wish: Wish)
    ensures Calls(c, wish, 2) == Reconciled(Reconciled(c, wish).0, wish).0
  {
    assert Calls(c, wish, 1) == Reconciled(Calls(c, wish, 0), wish).0;
  }

  /** What a reconcile promises under any refusals. `Done` is only answered to an enabled feature
      when everything asked for is there, and never while a disabled one is complete. While it is
      enabled nothing goes but what is reinstalled, and of a running installation nothing at all. A
      partial one is left alone by switching it off, but for the namespace, and of a complete one
      nothing goes before the values are saved. The values are kept or, at the end, brought up to
      date, and the kinds the client knows stay known. */
  predicate Honest(a: Cluster, b: Cluster, wish: Wish, verdict: Verdict)
    requires wish.Managed?
  {
    && Remembers(a, b)
    && (b.values == a.values || (!Broken(a.values) && b.values == Updated(a.values, wish)))
    && (wish.enabled && verdict == Done ==>
          && Installed(b) && Emulates(b) == Needed(wish.emulation, b.nodes)
          && !Broken(a.values) && b.values == Updated(a.values, wish))
    && (wish.enabled && Installed(a) ==>
          && Installed(b) && a.parts - {DaemonSet} == b.parts - {DaemonSet}
          && b == a.(parts := b.parts, known := b.known, nodes := b.nodes, emulation := b.emulation,
                     values := b.values))
    && (!wish.enabled ==>
          && b.parts <= a.parts && a.parts - COMPONENTS == b.parts - COMPONENTS
          && b == a.(parts := b.parts, known := b.known, values := b.values)
          && (verdict == Done ==> !Installed(b))
          && (Installed(a) && b.parts != a.parts ==> !Broken(a.values) && b.values == Updated(a.values, wish)))
    && (wish.enabled ==> Within(a.(values := b.values), b, EVERYTHING) && (b.values != a.values ==> verdict == Done))
    && (!wish.enabled && !Installed(a) ==> b.parts - {KubeVirtNs} == a.parts - {KubeVirtNs})
  }

  lemma InstalledReconcile(c: Cluster, wish: Wish)
    requires wish.Managed? && wish.enabled && Installed(c) && Lookup(c, KubeVirtCr) != NoMatch && !Broken(c.values)
    ensures var k := if wish.emulation == "auto" then Checked(c) else c;
            Reconciled(c, wish) ==
              if wish.emulation == "auto" && c.nodes == [] then (k, Error)
              else (Emulated(k, Needed(wish.emulation, k.nodes)).(values := Updated(c.values, wish)), Done)
  {
    hide Checked, Updated, Needed;
  }

  /** All that may change of an installed Virt while it is enabled. */
  predicate Touched(a: Cluster, b: Cluster) {
    && Installed(b) && a.parts - {DaemonSet} == b.parts - {DaemonSet} && b.values == a.values
    && b == a.(parts := b.parts, known := b.known, nodes := b.nodes, emulation := b.emulation)
    && (a.nodes == [] <==> b.nodes == [])
  }

  /** After an installation, complete or not. */
  lemma InstallHonest(a: Cluster, b: Cluster, wish: Wish)
    requires wish.Managed? && wish.enabled && !Installed(a) && Within(a, b, EVERYTHING)
    ensures Honest(a, b, wish, Requeue) && Honest(a, b, wish, Error)
  {
    SameValues(a, b, EVERYTHING);
  }

  /** After the check. */
  lemma LabelsOnly(a: Cluster, b: Cluster, wish: Wish)
    requires wish.Managed? && wish.enabled && Installed(a) && Within(a, b, {DaemonSet})
    ensures Touched(a, b) && KubeVirtCr in b.parts && Within(a, b, EVERYTHING) && Honest(a, b, wish, Error)
  {
    StaysInstalled(a, b, {DaemonSet});
    WithinItself(b, EVERYTHING);
    WithinMore(a, b, {DaemonSet}, b, EVERYTHING, EVERYTHING);
    SameValues(a, b, EVERYTHING);
    assert Touched(a, b);
    hide Within, Installed;
  }

  /** After the setting was updated, or not. */
  lemma EmulationOnly(a: Cluster, b: Cluster, emulation: Option<bool>, wish: Wish)
    requires wish.Managed? && wish.enabled && Installed(a) && Touched(a, b) && Within(a, b, EVERYTHING)
    ensures var d := b.(emulation := emulation);
            Touched(a, d) && Within(a, d, EVERYTHING) && Honest(a, d, wish, Error)
  {
    var d := b.(emulation := emulation);
    assert Within(b, d, EVERYTHING);
    WithinMore(a, b, EVERYTHING, d, EVERYTHING, EVERYTHING);
    SameValues(a, d, EVERYTHING);
    assert Installed(d);
    hide Within, Installed;
  }

  /** After the values were saved, or not. */
  lemma AllKept(a: Cluster, b: Cluster, wish: Wish, need: bool)
    requires wish.Managed? && wish.enabled && Installed(a) && Touched(a, b) && Within(a, b, EVERYTHING)
    requires !Broken(a.values) && need == Needed(wish.emulation, b.nodes) && Emulates(b) == need
    ensures Honest(a, b, wish, Error)
    ensures Honest(a, b.(values := Updated(a.values, wish)), wish, Done)
  {
    SameValues(a, b, EVERYTHING);
    var v := Updated(a.values, wish);
    ValuesWithin(a, b, v);
    InstalledAnyway(b, b.emulation, v);
    hide Within, Installed, Needed, Updated;
  }

  lemma RefusedIsHonest(c: Cluster, wish: Wish)
    requires wish.Managed?
    ensures Honest(c, c, wish, Error)
  {
  }

  lemma UpdatedIs(v: Values, wish: Wish)
    requires wish.Managed? && !Broken(v)
    ensures var values := SettingsOf(v)["enabled" := Flag(wish.enabled)];
            Stored(values["managed" := Flag(true)]["emulation" := Word(wish.emulation)]) == Updated(v, wish)
  {
  }

  lemma RefusedAtOnce(c: Cluster, wish: Wish)
    ensures wish.Nothing? ==> Reconciled(c, wish) == (c, Done)
    ensures wish.Unreadable? || (wish.Managed? && Broken(c.values)) ==> Reconciled(c, wish) == (c, Error)
  {
  }

  lemma InstalledIsRemovable(c: Cluster)
    ensures Installed(c) ==> Removable(c) == COMPONENTS
  {
  }

  lemma RemovableValues(c: Cluster)
    ensures forall v: Values :: Removable(c.(values := v)) == Removable(c)
  {
  }

  lemma StillRecoverable(a: Cluster, b: Cluster, wish: Wish, verdict: Verdict)
    requires wish.Managed? && Honest(a, b, wish, verdict) && !Broken(a.values)
    ensures !Broken(b.values)
    ensures KubeVirtCrd in a.parts + a.known ==> KubeVirtCrd in b.parts + b.known
    ensures a.nodes != [] ==> b.nodes != []
  {
    hide Within;
    assert KubeVirtCrd in a.parts ==> KubeVirtCrd in a.parts * KINDS;
  }

  lemma SameValues(a: Cluster, b: Cluster, ps: set<Part>)
    requires Within(a, b, ps)
    ensures a.values == b.values && a.(values := b.values) == a
  {
  }

  lemma ManagerStaysUp(a: Cluster, b: Cluster, ps: set<Part>)
    requires Within(a, b, ps) && ManagerDeployment !in ps && ManagerUp(a)
    ensures ManagerUp(b)
  {
    assert ManagerDeployment in a.parts - ps;
  }

  lemma ValuesWithin(a: Cluster, b: Cluster, v: Values)
    requires Within(a, b, EVERYTHING)
    ensures Within(a.(values := v), b.(values := v), EVERYTHING)
  {
  }

  lemma SavedAndDropped(a: Cluster, gone: set<Part>, wish: Wish)
    requires wish.Managed? && !wish.enabled && Installed(a) && !Broken(a.values) && gone <= COMPONENTS
    ensures var d := Drop(a.(values := Updated(a.values, wish)), gone);
            Honest(a, d, wish, Requeue) && Honest(a, d, wish, Error)
  {
    hide Updated, Within;
  }

  lemma NamespaceDropped(a: Cluster, wish: Wish)
    requires wish.Managed? && !wish.enabled && !Installed(a)
    ensures Honest(a, a, wish, Done) && Honest(a, Drop(a, {KubeVirtNs}), wish, Done)
    ensures Honest(a, Drop(a, {KubeVirtNs}), wish, Error)
  {
    hide Within;
  }

  const EVERYTHING: set<Part> := COMPONENTS + {DaemonSet}

  lemma DocSets()
    ensures DocSet(ManagerYaml) == {ManagerNs, ManagerDeployment} && DocSet(ManagerCrdYaml) == {ManagerCrd}
    ensures DocSet(CdiOperatorYaml) == {CdiNs, CdiCrd, CdiOperator}
    ensures DocSet(KubeVirtOperatorYaml) == {KubeVirtNs, KubeVirtCrd, KubeVirtOperator}
  {
  }

  lemma LookupAnswers(c: Cluster, p: Part)
    ensures Lookup(c, p) != Failed
    ensures p != CdiCr && p != KubeVirtCr ==> Lookup(c, p) != NoMatch
  {
  }

  lemma DeletedMore(f: Faults, docs: seq<Part>, k: nat, i: nat)
    requires i < |docs|
    ensures Deleted(f, docs[..i + 1], k)
         == if Refuses(f, k + i) then Deleted(f, docs[..i], k)
            else Deleted(f, docs[..i], k) + {docs[i]}
  {
    hide Refuses;
    var more := Deleted(f, docs[..i + 1], k);
    forall p | p in Deleted(f, docs[..i], k) ensures p in more {
      var j :| 0 <= j < i && !Refuses(f, k + j) && docs[..i][j] == p;
      assert docs[..i + 1][j] == p;
    }
    if !Refuses(f, k + i) { assert docs[..i + 1][i] in more; }
    forall p | p in more ensures p in Deleted(f, docs[..i], k) || (!Refuses(f, k + i) && p == docs[i]) {
      var j :| 0 <= j < i + 1 && !Refuses(f, k + j) && docs[..i + 1][j] == p;
      if j < i { assert docs[..i][j] == p; }
    }
  }

  lemma ManagerLeavesCdi(c: Cluster, f: Faults, k: nat)
    ensures Lookup(Drop(c, ManagerGone(f, k)), CdiCr) == Lookup(c, CdiCr)
  {
    AllDeleted(f, ManagerYaml);
    AllDeleted(f, ManagerCrdYaml);
    DocSets();
    hide Deleted, DocSet, Refuses;
  }

  lemma KubeVirtSteps(c: Cluster)
    ensures var n := PutAll(Put(c, KubeVirtNs), Docs(KubeVirtOperatorYaml));
            && KubeVirtCrd in n.parts && PutAll(n, Docs(KubeVirtCrYaml)).emulation == None
            && KubeVirtUp(KubeVirtApplied(c)) && KubeVirtApplied(c).nodes == c.nodes
            && KubeVirtApplied(c).emulation == None
  {
    KubeVirtAppliedIs(c);
    var n := PutAll(Put(c, KubeVirtNs), Docs(KubeVirtOperatorYaml));
    PutThree(Put(c, KubeVirtNs), KubeVirtNs, KubeVirtCrd, KubeVirtOperator);
    PutOne(n, KubeVirtCr);
  }

  lemma KubeVirtStaysUp(a: Cluster, b: Cluster, ps: set<Part>)
    requires Within(a, b, ps) && KubeVirtCr !in ps && KubeVirtUp(a)
    ensures KubeVirtUp(b) && Emulates(a) == Emulates(b) && (DaemonSet !in ps ==> a.nodes == b.nodes)
  {
    assert KubeVirtCr in a.parts - ps;
  }

  lemma StaysInstalled(a: Cluster, b: Cluster, ps: set<Part>)
    requires Within(a, b, ps) && ps !! {KubeVirtCr, CdiCr, ManagerDeployment} && Installed(a)
    ensures Installed(b) && KubeVirtCr in b.parts
  {
    KubeVirtStaysUp(a, b, ps);
    CdiStaysUp(a, b, ps);
    ManagerStaysUp(a, b, ps);
  }

  lemma InstalledAnyway(c: Cluster, emulation: Option<bool>, values: Values)
    ensures Installed(c) ==> Installed(c.(emulation := emulation)) && Installed(c.(values := values))
  {
  }

  lemma SameNodes(a: Cluster, b: Cluster, ps: set<Part>)
    requires Within(a, b, ps)
    ensures a.nodes == [] <==> b.nodes == []
  {
  }

  lemma CdiStaysUp(a: Cluster, b: Cluster, ps: set<Part>)
    requires Within(a, b, ps) && CdiCr !in ps && CdiUp(a)
    ensures CdiUp(b)
  {
    assert CdiCr in a.parts - ps;
  }

  lemma EmulatedWithin(c: Cluster, use: bool)
    ensures Within(c, c.(emulation := Some(use)), EVERYTHING)
  {
  }

  lemma WithinItself(c: Cluster, ps: set<Part>)
    ensures Within(c, c, ps)
  {
  }

  lemma NothingToSettle(p: Part)
    ensures forall c: Cluster :: Settle(c, Gone(p)) == c
  {
  }

  lemma PatchWithin(c: Cluster)
    ensures Within(c, c.(cdiLimited := true), CDI_PARTS)
  {
  }

  /** What the single steps of an installation rely on: the definitions precede the resources. */
  lemma CdiSteps(c: Cluster)
    ensures var m := PutAll(c, Docs(CdiOperatorYaml)); var n := PutAll(m, Docs(CdiCrYaml));
            && CdiCrd in m.parts && Settle(m, CdiServed) == m
            && CdiUp(Settle(n, CdiDeployed))
    ensures forall p :: p in Docs(CdiOperatorYaml) ==> Servable(c, p)
  {
    var m := PutAll(c, Docs(CdiOperatorYaml));
    PutThree(c, CdiNs, CdiCrd, CdiOperator);
    PutOne(m, CdiCr);
    hide PutAll;
  }

  lemma ManagerSteps(c: Cluster)
    ensures ManagerUp(ManagerInstalled(c))
  {
    ManagerInstalledIs(c);
  }

  lemma DropNothing(c: Cluster)
    ensures Drop(c, {}) == c
  {
    assert Drop(c, {}).parts == c.parts;
    assert Drop(c, {}).known == c.known;
  }
}
