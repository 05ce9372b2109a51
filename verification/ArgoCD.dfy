/** The ArgoCD feature (internal/controller/argocd_controller.go). Every call of one reconcile is
    made at most once, so the faults of a reconcile are one outcome per call. */
module ArgoCD {
  import opened Prelude
  import opened Json
  import opened FeatureValues
  import ConfigFile

  /** The Helm release with its version, its namespace, and the saved values. */
  datatype State = State(release: Option<string>, namespace: bool, values: Values)

  /** A Helm command: what it did and what its caller is told are two things, because only the text
      collected from its log decides about success (`JobRun.HelmSucceeds`). */
  datatype Command = Command(done: bool, told: bool)

  /** What the status check reports: what is the case, a failure, a success whatever is the case,
      or nothing at all because reading its log panics. */
  datatype Report = Truthful | Unread | Claimed | Panics

  /** A call of the API takes effect and says so, is refused, or takes effect and is reported as
      failed. */
  datatype ApiCall = Made | Refused | Lost

  /** What becomes of the calls of one reconcile; `spaced` tells whether an installation that does
      not come about leaves its namespace behind. */
  datatype Calls = Calls(config: bool, values: bool, status: Report, host: bool, install: Command, spaced: bool,
                         uninstall: Command, namespace: ApiCall, save: ApiCall)

  const FAULTLESS := Calls(true, true, Truthful, true, Command(true, true), false, Command(true, true), Made, Made)

  datatype Wish = Nothing | Unreadable | Managed(enabled: bool, version: string)

  const DEFAULT_VERSION := "7.8.7"

  function WishOf(data: Option<Option<Json>>): Wish {
    if data.None? || data.value.None? then Nothing
    else match ConfigFile.Unmarshal(data.value.value)
      case None => Unreadable
      case Some(config) =>
        var argocd := config.features.argocd;
        if argocd.managed != "true" then Nothing
        else Managed(argocd.enabled == "true", if argocd.version == "" then DEFAULT_VERSION else argocd.version)
  }

  function Updated(v: Values, wish: Wish): Values
    requires wish.Managed?
  {
    Stored(SettingsOf(v)["enabled" := Flag(wish.enabled)]["managed" := Flag(true)]["version" := Word(wish.version)])
  }

  datatype Verdict = Done | Error

  /** The release counts as installed when `helm status` is reported to succeed. */
  predicate SeenInstalled(s: State, o: Calls) {
    o.status.Claimed? || (o.status.Truthful? && s.release.Some?)
  }

  /** Uninstalling a release that is not there is an error, which may stay unreported as well. */
  predicate ToldUninstalled(present: bool, o: Calls) {
    o.uninstall.told && (present || !o.uninstall.done)
  }

  function Saved(s: State, wish: Wish, save: ApiCall): (State, Verdict)
    requires wish.Managed?
  {
    (if save.Refused? then s else s.(values := Updated(s.values, wish)), if save.Made? then Done else Error)
  }

  function AfterInstall(s: State, version: string, o: Calls): State {
    s.(release := if o.install.done then Some(version) else s.release,
       namespace := s.namespace || o.install.done || o.spaced)
  }

  function AfterUninstall(s: State, o: Calls): State {
    if o.uninstall.done then s.(release := None) else s
  }

  function Reconciled(s: State, wish: Wish, o: Calls): (State, Verdict) {
    if !o.config then (s, Error)
    else if wish.Nothing? then (s, Done)
    else if wish.Unreadable? || !o.values || Broken(s.values) || o.status.Panics? then (s, Error)
    else if wish.enabled then
      if SeenInstalled(s, o) then Saved(s, wish, o.save)
      else if !o.host then (s, Error)
      else if o.install.told then Saved(AfterInstall(s, wish.version, o), wish, o.save)
      else (AfterInstall(s, wish.version, o), Error)
    else
      if !SeenInstalled(s, o) then Saved(s, wish, o.save)
      else
        var t := AfterUninstall(s, o);
        if !ToldUninstalled(s.release.Some?, o) then (t, Error)
        else
          var u := if o.namespace.Refused? then t else t.(namespace := false);
          if o.namespace.Made? && t.namespace then Saved(u, wish, o.save) else (u, Error)
  }

  /** The configuration and the values can be read, and the status check does not end the call. */
  predicate GetsThrough(s: State, o: Calls) {
    o.config && o.values && !s.values.Corrupt? && !s.values.Null? && !o.status.Panics?
  }

  class Reconciler {
    var s: State

    constructor (s: State)
      ensures this.s == s
    {
      this.s := s;
    }

    method GetValues(o: Calls) returns (values: Reading)
      ensures values == if o.values then Decoded(s.values) else Failing
    {
      if !o.values || s.values.Corrupt? { return Failing; }
      if s.values.Null? { return Nil; }
      return Settings(if s.values.Stored? then s.values.settings else map[]);
    }

    method SaveValues(values: map<string, Setting>, o: Calls) returns (ok: bool)
      modifies this
      ensures ok <==> o.save.Made?
      ensures s == if o.save.Refused? then old(s) else old(s).(values := Stored(values))
    {
      if o.save.Refused? { return false; }
      s := s.(values := Stored(values));
      return o.save.Made?;
    }

    method Reconcile(data: Option<Option<Json>>, o: Calls) returns (verdict: Verdict)
      modifies this
      ensures (s, verdict) == Reconciled(old(s), WishOf(data), o)
      ensures !WishOf(data).Managed? || !GetsThrough(old(s), o) ==> s == old(s)
      ensures verdict == Done ==> o.config && (WishOf(data).Nothing? || (WishOf(data).Managed? && o.save.Made?))
      ensures o.config && WishOf(data).Nothing? ==> verdict == Done
    {
      hide WishOf;
      if !o.config { return Error; }
      var wish := WishOf(data);
      if wish.Nothing? { return Done; }
      if wish.Unreadable? { return Error; }
      var read := GetValues(o);
      if read.Failing? { return Error; }
      // The first assignment to the missing map panics; the runtime turns that into an error.
      if read.Nil? { return Error; }
      var values := read.settings["enabled" := Flag(wish.enabled)];
      values := values["managed" := Flag(true)]["version" := Word(wish.version)];
      // A panic of the callback that reads the log ends the reconcile.
      if o.status.Panics? { return Error; }
      var installed := match o.status case Claimed => true case Truthful => s.release.Some? case _ => false;
      if wish.enabled {
        if !installed {
          if !o.host { return Error; }
          if o.install.done { s := s.(release := Some(wish.version)); }
          if o.install.done || o.spaced { s := s.(namespace := true); }
          if !o.install.told { return Error; }
        }
      } else if installed {
        var told := o.uninstall.told && (s.release.Some? || !o.uninstall.done);
        if o.uninstall.done { s := s.(release := None); }
        if !told { return Error; }
        var found := s.namespace;
        if !o.namespace.Refused? { s := s.(namespace := false); }
        if !o.namespace.Made? || !found { return Error; }
      }
      var ok := SaveValues(values, o);
      return if ok then Done else Error;
    }
  }

  // ---------------------------------------------------------------- what runs lead to

  /** Reconciles of one configuration, each with its own faults. */
  function Run(s: State, wish: Wish, os: seq<Calls>): State
    decreases |os|
  {
    if os == [] then s else Reconciled(Run(s, wish, os[..|os| - 1]), wish, os[|os| - 1]).0
  }

  /** A feature that is not managed, or whose configuration cannot be read, is never touched. */
  lemma {:induction false} UnmanagedIsUntouched(s: State, wish: Wish, os: seq<Calls>)
    requires !wish.Managed?
    ensures Run(s, wish, os) == s
    decreases |os|
  {
    if os != [] { UnmanagedIsUntouched(s, wish, os[..|os| - 1]); }
  }

  /** One call on a feature switched on: release, namespace and values, each by itself. */
  lemma SwitchedOn(s: State, wish: Wish, o: Calls)
    requires wish.Managed? && wish.enabled
    ensures var (t, v) := Reconciled(s, wish, o);
            var installs := GetsThrough(s, o) && !SeenInstalled(s, o) && o.host;
            var saves := GetsThrough(s, o) && (SeenInstalled(s, o) || (o.host && o.install.told));
            && t.release == (if installs && o.install.done then Some(wish.version) else s.release)
            && (t.namespace <==> s.namespace || (installs && (o.install.done || o.spaced)))
            && (saves && !o.save.Refused? ==> t.values == Updated(s.values, wish))
            && (!saves || o.save.Refused? ==> t.values == s.values)
            && (v == Done <==> saves && o.save.Made?)
  {
    hide Updated;
  }

  /** The same for one switched off. */
  lemma SwitchedOff(s: State, wish: Wish, o: Calls)
    requires wish.Managed? && !wish.enabled
    ensures var (t, v) := Reconciled(s, wish, o);
            var removes := GetsThrough(s, o) && SeenInstalled(s, o);
            var clears := removes && ToldUninstalled(s.release.Some?, o);
            var saves := GetsThrough(s, o) && (!removes || (clears && o.namespace.Made? && s.namespace));
            && t.release == (if removes && o.uninstall.done then None else s.release)
            && (t.namespace <==> s.namespace && !(clears && !o.namespace.Refused?))
            && (saves && !o.save.Refused? ==> t.values == Updated(s.values, wish))
            && (!saves || o.save.Refused? ==> t.values == s.values)
            && (v == Done <==> saves && o.save.Made?)
  {
    hide Updated;
  }

  lemma {:induction false} ValuesStayReadable(s: State, wish: Wish, os: seq<Calls>)
    ensures Broken(Run(s, wish, os).values) <==> Broken(s.values)
    decreases |os|
  {
    if os != [] { ValuesStayReadable(s, wish, os[..|os| - 1]); }
  }

  /** A call that gets to uninstalling a release, and the release goes. */
  predicate Uninstalls(o: Calls) {
    o.config && o.values && (o.status.Truthful? || o.status.Claimed?) && o.uninstall.done
  }

  /** The release is still there at call `i`. */
  predicate Present(s: State, os: seq<Calls>, i: nat)
    requires i <= |os|
  {
    s.release.Some? && forall j :: 0 <= j < i ==> !Uninstalls(os[j])
  }

  /** A call that sees the release, rightly or by a false report, is told that it is uninstalled,
      rightly or not, and has its deletion of the namespace carried out. */
  predicate Clears(o: Calls, present: bool) {
    && o.config && o.values && (o.status.Claimed? || (o.status.Truthful? && present))
    && ToldUninstalled(present, o) && !o.namespace.Refused?
  }

  predicate ClearedAt(s: State, os: seq<Calls>, i: int) {
    0 <= i < |os| && Clears(os[i], Present(s, os, i))
  }

  /** Switched off, over any run: the release goes with the first uninstallation that does anything,
      and the namespace goes if and only if some call clears it. A call that finds no release any
      more only does so on two false reports, so that a failed deletion is not made up for. */
  lemma {:induction false} NamespaceIsNotRetried(s: State, wish: Wish, os: seq<Calls>)
    requires wish.Managed? && !wish.enabled && !Broken(s.values)
    ensures Run(s, wish, os).release == if Present(s, os, |os|) then s.release else None
    ensures Run(s, wish, os).namespace <==> s.namespace && forall i :: !ClearedAt(s, os, i)
    decreases |os|
  {
    if os != [] {
      var n := |os| - 1;
      var head, o := os[..n], os[n];
      var t := Run(s, wish, head);
      NamespaceIsNotRetried(s, wish, head);
      ValuesStayReadable(s, wish, head);
      assert forall i :: 0 <= i <= n ==> Present(s, head, i) == Present(s, os, i);
      assert forall i :: 0 <= i < n ==> ClearedAt(s, head, i) == ClearedAt(s, os, i);
      assert Present(s, os, |os|) <==> Present(s, os, n) && !Uninstalls(o);
      assert t.release.Some? == Present(s, os, n);
      LastCall(t, wish, o);
      if ClearedAt(s, os, n) {
      } else if i :| ClearedAt(s, os, i) {
        assert ClearedAt(s, head, i);
      }
    }
  }

  lemma LastCall(t: State, wish: Wish, o: Calls)
    requires wish.Managed? && !wish.enabled && !Broken(t.values)
    ensures var u := Reconciled(t, wish, o).0;
            && u.release == (if Uninstalls(o) then None else t.release)
            && u.namespace == (t.namespace && !Clears(o, t.release.Some?))
  {
  }

  /** Without a release a leftover namespace goes exactly when a call is falsely told both that the
      release is there and that it is uninstalled. */
  lemma LeftoverStays(s: State, wish: Wish, os: seq<Calls>)
    requires wish.Managed? && !wish.enabled && !Broken(s.values) && s.release.None?
    ensures Run(s, wish, os).release.None?
    ensures Run(s, wish, os).namespace <==>
              s.namespace && forall i :: 0 <= i < |os| ==>
                !(os[i].config && os[i].values && os[i].status.Claimed?
                  && os[i].uninstall == Command(false, true) && !os[i].namespace.Refused?)
  {
    NamespaceIsNotRetried(s, wish, os);
    forall i | 0 <= i < |os|
      ensures ClearedAt(s, os, i) <==> os[i].config && os[i].values && os[i].status.Claimed?
                                       && os[i].uninstall == Command(false, true) && !os[i].namespace.Refused?
    {
    }
  }

  /** Without false reports the namespace goes if and only if the very call that removes the release
      is told so and has its deletion carried out. */
  lemma OneChanceOnly(s: State, wish: Wish, os: seq<Calls>)
    requires wish.Managed? && !wish.enabled && !Broken(s.values) && s.release.Some? && s.namespace
    requires forall i :: 0 <= i < |os| ==> !os[i].status.Claimed? && (os[i].uninstall.told ==> os[i].uninstall.done)
    ensures !Run(s, wish, os).namespace <==>
              exists i :: 0 <= i < |os| && Present(s, os, i) && Uninstalls(os[i]) && os[i].uninstall.told
                && !os[i].namespace.Refused?
  {
    NamespaceIsNotRetried(s, wish, os);
    assert forall i :: 0 <= i < |os| ==>
        (ClearedAt(s, os, i) <==> Present(s, os, i) && Uninstalls(os[i]) && os[i].uninstall.told
                                  && !os[i].namespace.Refused?);
  }

  /** `Done` on a feature switched off means that the release is gone, unless its status was
      reported as a failure, which passes for absence, or an uninstallation that did nothing was
      reported as a success. */
  lemma DoneWhenOff(s: State, wish: Wish, o: Calls)
    requires wish.Managed? && !wish.enabled && Reconciled(s, wish, o).1 == Done
    ensures Reconciled(s, wish, o).0.release.Some? <==> s.release.Some? && (o.status.Unread? || !o.uninstall.done)
    ensures Reconciled(s, wish, o).0.values == Updated(s.values, wish)
  {
  }

  /** Switched on, `Done` means that the values are saved, and that there is a release unless a
      status check or an installation was falsely reported as a success. The release has the version
      written to the values if and only if it had it before or this call installed it: an existing
      release is never upgraded. */
  lemma DoneWhenOn(s: State, wish: Wish, o: Calls)
    requires wish.Managed? && wish.enabled && Reconciled(s, wish, o).1 == Done
    ensures var t := Reconciled(s, wish, o).0;
            && t.values == Updated(s.values, wish) && t.values.settings["version"] == Word(wish.version)
            && (t.release.Some? <==> s.release.Some? || (!o.status.Claimed? && o.install.done))
            && (t.release == Some(wish.version) <==>
                  s.release == Some(wish.version) || (!SeenInstalled(s, o) && o.install.done))
  {
  }

  /** Without faults one call completes either direction and a second changes nothing, unless the
      values are unreadable or, switched off, the namespace of the release was already missing. */
  lemma SettlesInOne(s: State, wish: Wish)
    requires wish.Managed?
    ensures var (t, v) := Reconciled(s, wish, FAULTLESS);
            && (v == Done <==> !Broken(s.values) && (!wish.enabled && s.release.Some? ==> s.namespace))
            && (v == Done ==> Reconciled(t, wish, FAULTLESS) == (t, Done) && t.release.Some? == wish.enabled)
            && (v == Error && !Broken(s.values) ==> Reconciled(t, wish, FAULTLESS).1 == Done)
  {
    if !Broken(s.values) {
      assert Updated(Updated(s.values, wish), wish) == Updated(s.values, wish);
    }
  }
}
