/** From the resource to the feature reconcilers: what the two of them make of the ConfigMap that the
    configuration protocol leaves, and what that leads to. */
module FeatureGates {
  import opened Prelude
  import opened Json
  import opened ConfigFile
  import opened FeatureValues
  import opened Copies
  import Api = ClusterApi
  import Virt
  import ArgoCD

  // ---------------------------------------------------------------- what is read from a ConfigMap

  /** What the virtualisation reconciler reads from a configuration: the exact texts decide. */
  lemma VirtWish(c: Config)
    ensures Virt.WishOf(Some(Some(Marshal(c))))
         == if c.features.virt.managed == "true" then
              Virt.Managed(c.features.virt.enabled == "true", c.features.virt.emulation)
            else Virt.Nothing
  {
    hide Marshal, Unmarshal;
    UnmarshalAfterMarshal(c);
  }

  /** The ArgoCD reconciler also takes the version, 7.8.7 when none is given. */
  lemma ArgoWish(c: Config)
    ensures ArgoCD.WishOf(Some(Some(Marshal(c))))
         == if c.features.argocd.managed == "true" then
              ArgoCD.Managed(c.features.argocd.enabled == "true",
                             if c.features.argocd.version == "" then "7.8.7" else c.features.argocd.version)
            else ArgoCD.Nothing
  {
    hide Marshal, Unmarshal;
    UnmarshalAfterMarshal(c);
  }

  /** A missing ConfigMap or key is no wish, and text that does not decode is an error. */
  lemma NoConfiguration(j: Json)
    ensures Virt.WishOf(None) == Virt.Nothing && Virt.WishOf(Some(None)) == Virt.Nothing
    ensures ArgoCD.WishOf(None) == ArgoCD.Nothing && ArgoCD.WishOf(Some(None)) == ArgoCD.Nothing
    ensures Virt.WishOf(Some(Some(j))) == Virt.Unreadable <==> Unmarshal(j).None?
    ensures ArgoCD.WishOf(Some(Some(j))) == ArgoCD.Unreadable <==> Unmarshal(j).None?
  {
    hide Unmarshal;
  }

  /** Both reconcilers see the gates of the ConfigMap. */
  lemma WishesAreTheGates(cm: ConfigMap)
    requires Gates(cm).Some?
    ensures var (virt, argocd) := Gates(cm).value; var data := Some(Some(cm[CONFIG_KEY]));
            && (Virt.WishOf(data).Managed? <==> virt.0) && (virt.0 ==> Virt.WishOf(data).enabled == virt.1)
            && (ArgoCD.WishOf(data).Managed? <==> argocd.0) && (argocd.0 ==> ArgoCD.WishOf(data).enabled == argocd.1)
  {
    hide Unmarshal;
  }

  // ---------------------------------------------------------------- from the resource

  /** The wish a resource stands for. */
  function VirtOf(s: Api.Spec): Virt.Wish {
    var f := s.features.virt;
    if f.managed then Virt.Managed(f.enabled, f.emulation) else Virt.Nothing
  }

  function ArgoOf(s: Api.Spec): ArgoCD.Wish {
    var f := s.features.argocd;
    if f.managed then ArgoCD.Managed(f.enabled, "7.8.7") else ArgoCD.Nothing
  }

  /** After a `Reconcile` that writes the file, both reconcilers are asked for exactly what the
      resource says, ArgoCD always in the default version. */
  lemma WishesAfterWrite(w: World)
    requires w.versions != [] && !FromFile(Last(w.versions))
    ensures var v := Reconciled(w); var s := Last(w.versions).spec;
            && v.maps != [] && CONFIG_KEY in Last(v.maps)
            && var data := Some(Some(Last(v.maps)[CONFIG_KEY]));
               Virt.WishOf(data) == VirtOf(s) && ArgoCD.WishOf(data) == ArgoOf(s)
  {
    hide Marshal, Unmarshal, Reconciled, Virt.WishOf, ArgoCD.WishOf;
    WriteStep(w);
    var c := MapFromClusterConfig(Last(w.versions).spec);
    VirtWish(c);
    ArgoWish(c);
  }

  /** After one that reads the file, they are asked for what the file says in exact texts. */
  lemma WishesAfterRead(w: World)
    requires Running(w) && FromFile(Last(w.versions))
    ensures var v := Reconciled(w); var f := ReadConfig(w.file).value.features;
            && v.maps != [] && CONFIG_KEY in Last(v.maps)
            && var data := Some(Some(Last(v.maps)[CONFIG_KEY]));
               && Virt.WishOf(data) == (if f.virt.managed == "true"
                                        then Virt.Managed(f.virt.enabled == "true", f.virt.emulation) else Virt.Nothing)
               && ArgoCD.WishOf(data) == (if f.argocd.managed == "true"
                                          then ArgoCD.Managed(f.argocd.enabled == "true",
                                                 if f.argocd.version == "" then "7.8.7" else f.argocd.version)
                                          else ArgoCD.Nothing)
  {
    hide Marshal, Unmarshal, Reconciled, Virt.WishOf, ArgoCD.WishOf;
    ReadStep(w);
    VirtWish(ReadConfig(w.file).value);
    ArgoWish(ReadConfig(w.file).value);
  }

  // ---------------------------------------------------------------- end to end

  /** A resource that wants Virt, once written out, has it in two reconciles of a recoverable
      cluster, with the emulation it asks for; one that does not want it any more has nothing of a
      complete installation left after two. */
  lemma ResourceReachesVirt(w: World, c: Virt.Cluster)
    requires w.versions != [] && !FromFile(Last(w.versions)) && Last(w.versions).spec.features.virt.managed
    ensures var f := Last(w.versions).spec.features.virt; var v := Reconciled(w);
            && v.maps != [] && CONFIG_KEY in Last(v.maps)
            && var wish := Virt.WishOf(Some(Some(Last(v.maps)[CONFIG_KEY])));
               && wish.Managed?
               && (f.enabled && Virt.Recoverable(c, f.emulation) ==> Virt.Settled(Virt.Calls(c, wish, 2), wish))
               && (!f.enabled && Virt.Installed(c) && !Broken(c.values) ==>
                     Virt.Calls(c, wish, 2).parts !! Virt.COMPONENTS)
  {
    hide Marshal, Unmarshal, Reconciled, Virt.WishOf, Virt.Calls, Virt.Settled, Virt.Recoverable;
    WishesAfterWrite(w);
    var wish := VirtOf(Last(w.versions).spec);
    if wish.enabled { Virt.StabilisesInTwo(c, wish, 2); } else { Virt.DisabledComesToRest(c, wish, 2); }
  }

  // ---------------------------------------------------------------- the saved values

  /** Saving sets three keys and keeps all others. */
  lemma VirtValues(v: Values, wish: Virt.Wish)
    requires wish.Managed? && !Broken(v)
    ensures var u := Virt.Updated(v, wish);
            && u.Stored? && "enabled" in u.settings && u.settings["enabled"] == Flag(wish.enabled)
            && "managed" in u.settings && u.settings["managed"] == Flag(true)
            && "emulation" in u.settings && u.settings["emulation"] == Word(wish.emulation)
            && forall k :: k !in {"enabled", "managed", "emulation"} ==>
                 (k in u.settings <==> v.Stored? && k in v.settings)
                 && (v.Stored? && k in v.settings ==> k in u.settings && u.settings[k] == v.settings[k])
  {
  }

  lemma ArgoValues(v: Values, wish: ArgoCD.Wish)
    requires wish.Managed? && !Broken(v)
    ensures var u := ArgoCD.Updated(v, wish);
            && u.Stored? && "enabled" in u.settings && u.settings["enabled"] == Flag(wish.enabled)
            && "managed" in u.settings && u.settings["managed"] == Flag(true)
            && "version" in u.settings && u.settings["version"] == Word(wish.version)
            && forall k :: k !in {"enabled", "managed", "version"} ==>
                 (k in u.settings <==> v.Stored? && k in v.settings)
                 && (v.Stored? && k in v.settings ==> k in u.settings && u.settings[k] == v.settings[k])
  {
  }
}
