/** The `ClusterConfig` resource (api/v1alpha1). */
module ClusterApi {
  datatype Interface = Interface(dev: string, ipConfig: string, ipAddr: string, gateway: string,
                                 subnetMask: string, dns: string, dnsSearch: string)
  datatype Networking = Networking(cniType: string, firewalldEnabled: string, iface: Interface)
  datatype Virt = Virt(enabled: bool, managed: bool, emulation: string)
  datatype ArgoCD = ArgoCD(enabled: bool, managed: bool)
  datatype Features = Features(virt: Virt, argocd: ArgoCD)
  datatype HA = HA(iface: string, kind: string, apiControlEndpoint: string,
                   apiControlEndpointSubnetSize: string)
  datatype Cluster = Cluster(apiEndPointUseHostName: string, customApiEndPoint: string, ha: HA)
  datatype Spec = Spec(version: string, networking: Networking, features: Features, cluster: Cluster)

  const EMPTY_NETWORKING := Networking("", "", Interface("", "", "", "", "", "", ""))
  const EMPTY_FEATURES := Features(Virt(false, false, ""), ArgoCD(false, false))
  const EMPTY_CLUSTER := Cluster("", "", HA("", "", "", ""))
}

/** The configuration file of the host: its record, its text, and the conversions between the
    file and the resource (internal/controller/config). */
module ConfigFile {
  import opened Prelude
  import opened Json
  import Api = ClusterApi

  datatype Interface = Interface(dev: string, ipConfig: string, ipAddr: string, gateway: string,
                                 subnetMask: string, dns: string, dnsSearch: string)
  datatype Networking = Networking(cniType: string, firewalldEnabled: string, iface: Interface)
  datatype Virt = Virt(enabled: string, managed: string, version: string, emulation: string)
  datatype ArgoCD = ArgoCD(enabled: string, managed: string, version: string)
  datatype Features = Features(virt: Virt, argocd: ArgoCD)
  datatype HA = HA(iface: string, kind: string, apiControlEndpoint: string,
                   apiControlEndpointSubnetSize: string)
  datatype Cluster = Cluster(apiEndPointUseHostName: string, customApiEndPoint: string, ha: HA)
  datatype Config = Config(version: string, networking: Networking, features: Features, cluster: Cluster)

  // ---------------------------------------------------------------- the text of the file

  const IFACE_TAGS: seq<Tag> := [
    Tag("dev", Text(false)), Tag("ipconfig", Text(false)), Tag("ipaddr", Text(true)), Tag("gateway", Text(true)),
    Tag("subnet_mask", Text(true)), Tag("dns", Text(true)), Tag("dns_search", Text(true))]
  const CNI_TAGS: seq<Tag> := [Tag("type", Text(false))]
  const FIREWALLD_TAGS: seq<Tag> := [Tag("enabled", Text(false))]
  const NETWORKING_TAGS: seq<Tag> := [
    Tag("cni", Struct(CNI_TAGS)),
    Tag("firewalld", Struct(FIREWALLD_TAGS)),
    Tag("iface", Struct(IFACE_TAGS))]
  const VIRT_TAGS: seq<Tag> := [
    Tag("enabled", Text(false)), Tag("managed", Text(true)), Tag("version", Text(true)), Tag("emulation", Text(false))]
  const ARGOCD_TAGS: seq<Tag> := [
    Tag("enabled", Text(false)), Tag("managed", Text(true)), Tag("version", Text(true))]
  const FEATURES_TAGS: seq<Tag> := [Tag("virt", Struct(VIRT_TAGS)), Tag("argocd", Struct(ARGOCD_TAGS))]
  const HA_TAGS: seq<Tag> := [
    Tag("interface", Text(false)), Tag("type", Text(false)),
    Tag("apiControlEndpoint", Text(true)), Tag("apiControlEndpointSubnetSize", Text(true))]
  const CLUSTER_TAGS: seq<Tag> := [
    Tag("apiEndPointUseHostName", Text(false)), Tag("customApiEndPoint", Text(true)), Tag("ha", Struct(HA_TAGS))]
  const CONFIG_TAGS: seq<Tag> := [
    Tag("version", Text(false)), Tag("networking", Struct(NETWORKING_TAGS)),
    Tag("features", Struct(FEATURES_TAGS)), Tag("cluster", Struct(CLUSTER_TAGS))]
  const CONFIG_SCHEMA := Struct(CONFIG_TAGS)

  function InterfaceValue(i: Interface): (v: Value)
    ensures Fits(Struct(IFACE_TAGS), v)
  {
    Record([Leaf(i.dev), Leaf(i.ipConfig), Leaf(i.ipAddr), Leaf(i.gateway),
            Leaf(i.subnetMask), Leaf(i.dns), Leaf(i.dnsSearch)])
  }

  function NetworkingValue(n: Networking): (v: Value)
    ensures Fits(Struct(NETWORKING_TAGS), v)
  {
    Record([Record([Leaf(n.cniType)]), Record([Leaf(n.firewalldEnabled)]), InterfaceValue(n.iface)])
  }

  function FeaturesValue(f: Features): (v: Value)
    ensures Fits(Struct(FEATURES_TAGS), v)
  {
    var virt := Record([Leaf(f.virt.enabled), Leaf(f.virt.managed), Leaf(f.virt.version), Leaf(f.virt.emulation)]);
    var argocd := Record([Leaf(f.argocd.enabled), Leaf(f.argocd.managed), Leaf(f.argocd.version)]);
    assert Fits(Struct(VIRT_TAGS), virt) && Fits(Struct(ARGOCD_TAGS), argocd);
    Record([virt, argocd])
  }

  function ClusterValue(c: Cluster): (v: Value)
    ensures Fits(Struct(CLUSTER_TAGS), v)
  {
    var ha := Record([Leaf(c.ha.iface), Leaf(c.ha.kind), Leaf(c.ha.apiControlEndpoint),
                      Leaf(c.ha.apiControlEndpointSubnetSize)]);
    assert Fits(Struct(HA_TAGS), ha);
    Record([Leaf(c.apiEndPointUseHostName), Leaf(c.customApiEndPoint), ha])
  }

  function ConfigValue(c: Config): (v: Value)
    ensures Fits(CONFIG_SCHEMA, v)
  {
    Record([Leaf(c.version), NetworkingValue(c.networking), FeaturesValue(c.features), ClusterValue(c.cluster)])
  }

  function InterfaceOf(v: Value): Interface
    requires Fits(Struct(IFACE_TAGS), v)
  {
    Interface(TextAt(IFACE_TAGS, v, 0), TextAt(IFACE_TAGS, v, 1), TextAt(IFACE_TAGS, v, 2), TextAt(IFACE_TAGS, v, 3),
              TextAt(IFACE_TAGS, v, 4), TextAt(IFACE_TAGS, v, 5), TextAt(IFACE_TAGS, v, 6))
  }

  function NetworkingOf(v: Value): Networking
    requires Fits(Struct(NETWORKING_TAGS), v)
  {
    Networking(TextAt(CNI_TAGS, Part(NETWORKING_TAGS, v, 0), 0),
               TextAt(FIREWALLD_TAGS, Part(NETWORKING_TAGS, v, 1), 0),
               InterfaceOf(Part(NETWORKING_TAGS, v, 2)))
  }

  function FeaturesOf(v: Value): Features
    requires Fits(Struct(FEATURES_TAGS), v)
  {
    var virt, argo := Part(FEATURES_TAGS, v, 0), Part(FEATURES_TAGS, v, 1);
    Features(
      Virt(TextAt(VIRT_TAGS, virt, 0), TextAt(VIRT_TAGS, virt, 1), TextAt(VIRT_TAGS, virt, 2),
           TextAt(VIRT_TAGS, virt, 3)),
      ArgoCD(TextAt(ARGOCD_TAGS, argo, 0), TextAt(ARGOCD_TAGS, argo, 1), TextAt(ARGOCD_TAGS, argo, 2)))
  }

  function ClusterOf(v: Value): Cluster
    requires Fits(Struct(CLUSTER_TAGS), v)
  {
    var ha := Part(CLUSTER_TAGS, v, 2);
    Cluster(TextAt(CLUSTER_TAGS, v, 0), TextAt(CLUSTER_TAGS, v, 1),
            HA(TextAt(HA_TAGS, ha, 0), TextAt(HA_TAGS, ha, 1), TextAt(HA_TAGS, ha, 2), TextAt(HA_TAGS, ha, 3)))
  }

  function ConfigOf(v: Value): Config
    requires Fits(CONFIG_SCHEMA, v)
  {
    Config(TextAt(CONFIG_TAGS, v, 0), NetworkingOf(Part(CONFIG_TAGS, v, 1)),
           FeaturesOf(Part(CONFIG_TAGS, v, 2)), ClusterOf(Part(CONFIG_TAGS, v, 3)))
  }

  /** `json.Marshal` and `json.MarshalIndent` of a configuration. */
  function Marshal(c: Config): Json {
    Encode(CONFIG_SCHEMA, ConfigValue(c))
  }

  /** `json.Unmarshal` into a fresh configuration. */
  function Unmarshal(j: Json): Option<Config> {
    match DecodeInto(CONFIG_SCHEMA, Zero(CONFIG_SCHEMA), j)
    case None => None
    case Some(v) => Some(ConfigOf(v))
  }

  lemma TagsDistinct()
    ensures DistinctKeys(CONFIG_SCHEMA)
  {
    InterfaceTagsDistinct();
    FeatureTagsDistinct();
    FlatDistinct(CNI_TAGS);
    FlatDistinct(FIREWALLD_TAGS);
    FlatDistinct(NETWORKING_TAGS);
    FlatDistinct(HA_TAGS);
    FlatDistinct(CLUSTER_TAGS);
    assert "version"[0] != "cluster"[0];
    FlatDistinct(CONFIG_TAGS);
  }

  lemma InterfaceTagsDistinct()
    ensures DistinctKeys(Struct(IFACE_TAGS))
  {
    assert "dev"[1] != "dns"[1];
    FlatDistinct(IFACE_TAGS);
  }

  lemma FeatureTagsDistinct()
    ensures DistinctKeys(Struct(FEATURES_TAGS))
  {
    assert "enabled"[0] != "managed"[0] && "enabled"[0] != "version"[0] && "managed"[0] != "version"[0];
    FlatDistinct(VIRT_TAGS);
    FlatDistinct(ARGOCD_TAGS);
    FlatDistinct(FEATURES_TAGS);
  }

  /** What is written to the file is what is parsed from it. */
  lemma UnmarshalAfterMarshal(c: Config)
    ensures Unmarshal(Marshal(c)) == Some(c)
  {
    TagsDistinct();
    RoundTrip(CONFIG_SCHEMA, ConfigValue(c));
  }

  lemma MarshalInjective(c: Config, d: Config)
    requires Marshal(c) == Marshal(d)
    ensures c == d
  {
    UnmarshalAfterMarshal(c);
    UnmarshalAfterMarshal(d);
  }

  lemma FourFieldsSize(a: Field, b: Field, c: Field, d: Field)
    ensures Size(Obj([a, b, c, d])) >= 25 + |a.key| + |b.key| + |c.key| + |d.key|
  {
    hide TextSize;
    var fields := [a, b, c, d];
    assert fields[1..] == [b, c, d] && [b, c, d][1..] == [c, d] && [c, d][1..] == [d] && [d][1..] == [];
    assert FieldsSize([d]) >= |d.key| + 5;
    assert FieldsSize([c, d]) >= |c.key| + |d.key| + 10;
    assert FieldsSize([b, c, d]) >= |b.key| + |c.key| + |d.key| + 15;
  }

  lemma FourParts(tags: seq<Tag>, parts: seq<Value>)
    requires |tags| == 4 && FitAll(tags, parts) && forall i :: 0 <= i < 4 ==> tags[i].schema != Text(true)
    ensures var fields := EncodeParts(tags, parts);
            |fields| == 4 && forall i :: 0 <= i < 4 ==> fields[i].key == tags[i].key
  {
    hide Encode;
    EncodeSuffix(tags, parts, 3);
    EncodeSuffix(tags, parts, 2);
    EncodeSuffix(tags, parts, 1);
    EncodeSuffix(tags, parts, 0);
    assert tags[0..] == tags && parts[0..] == parts;
    assert tags[4..] == [] && parts[4..] == [];
  }

  lemma TopFields(c: Config)
    ensures var j := Marshal(c);
            && j.Obj? && |j.fields| == 4 && j.fields[0].key == "version" && j.fields[1].key == "networking"
            && j.fields[2].key == "features" && j.fields[3].key == "cluster"
  {
    FourParts(CONFIG_TAGS, ConfigValue(c).parts);
    hide EncodeParts, NetworkingValue, FeaturesValue, ClusterValue;
  }

  /** No configuration prints fewer than 50 bytes: its four top fields alone take 57. */
  lemma MarshalIsLong(c: Config)
    ensures Size(Marshal(c)) >= 50
  {
    TopFields(c);
    hide Marshal, Size;
    var f := Marshal(c).fields;
    FourFieldsSize(f[0], f[1], f[2], f[3]);
    assert Marshal(c) == Obj([f[0], f[1], f[2], f[3]]);
  }

  // ---------------------------------------------------------------- conversions

  /** `strings.ToLower(s) == "true"`. */
  predicate SaysTrue(s: string) {
    Lower(s) == "true"
  }

  /** `fmt.Sprintf("%t", b)`, `strconv.FormatBool(b)` and the two-branch text of the writer. */
  function BoolText(b: bool): (s: string)
    ensures SaysTrue(s) <==> b
    ensures s == "true" <==> b
  {
    assert "false"[0] != "true"[0];
    if b then "true" else "false"
  }

  /** `MapToClusterConfig`. */
  function MapToClusterConfig(c: Config): Api.Spec {
    Api.Spec(
      c.version,
      Api.Networking(
        c.networking.cniType,
        c.networking.firewalldEnabled,
        Api.Interface(c.networking.iface.dev, c.networking.iface.ipConfig, c.networking.iface.ipAddr,
                      c.networking.iface.gateway, c.networking.iface.subnetMask, c.networking.iface.dns,
                      c.networking.iface.dnsSearch)),
      Api.Features(
        Api.Virt(SaysTrue(c.features.virt.enabled), SaysTrue(c.features.virt.managed), c.features.virt.emulation),
        Api.ArgoCD(SaysTrue(c.features.argocd.enabled), SaysTrue(c.features.argocd.managed))),
      Api.Cluster(
        c.cluster.apiEndPointUseHostName,
        c.cluster.customApiEndPoint,
        Api.HA(c.cluster.ha.iface, c.cluster.ha.kind, c.cluster.ha.apiControlEndpoint,
               c.cluster.ha.apiControlEndpointSubnetSize)))
  }

  /** `mapFromClusterConfig`: mapping the result back gives the spec it came from. */
  function MapFromClusterConfig(s: Api.Spec): (c: Config)
    ensures MapToClusterConfig(c) == s
  {
    Config(
      s.version,
      Networking(
        s.networking.cniType,
        s.networking.firewalldEnabled,
        Interface(s.networking.iface.dev, s.networking.iface.ipConfig, s.networking.iface.ipAddr,
                  s.networking.iface.gateway, s.networking.iface.subnetMask, s.networking.iface.dns,
                  s.networking.iface.dnsSearch)),
      Features(
        Virt(if s.features.virt.enabled then "true" else "false",
             if s.features.virt.managed then "true" else "false", "", s.features.virt.emulation),
        ArgoCD(if s.features.argocd.enabled then "true" else "false",
               if s.features.argocd.managed then "true" else "false", "")),
      Cluster(
        s.cluster.apiEndPointUseHostName,
        s.cluster.customApiEndPoint,
        HA(s.cluster.ha.iface, s.cluster.ha.kind, s.cluster.ha.apiControlEndpoint,
           s.cluster.ha.apiControlEndpointSubnetSize)))
  }

  /** `ConvertToConfig`, the second conversion in that direction, agrees with the first. */
  function ConvertToConfig(s: Api.Spec): (c: Config)
    ensures c == MapFromClusterConfig(s)
  {
    var net, iface, virt, argo := s.networking, s.networking.iface, s.features.virt, s.features.argocd;
    Config(s.version,
           Networking(net.cniType, net.firewalldEnabled,
                      Interface(iface.dev, iface.ipConfig, iface.ipAddr, iface.gateway, iface.subnetMask,
                                iface.dns, iface.dnsSearch)),
           Features(Virt(BoolText(virt.enabled), BoolText(virt.managed), "", virt.emulation),
                    ArgoCD(BoolText(argo.enabled), BoolText(argo.managed), "")),
           Cluster(s.cluster.apiEndPointUseHostName, s.cluster.customApiEndPoint,
                   HA(s.cluster.ha.iface, s.cluster.ha.kind, s.cluster.ha.apiControlEndpoint,
                      s.cluster.ha.apiControlEndpointSubnetSize)))
  }

  /** `ConvertToClusterConfigSpec`: only the version survives. */
  function ConvertToClusterConfigSpec(c: Config): (s: Api.Spec)
    ensures IsEmptyK8sConfig(s)
    ensures s.version == MapToClusterConfig(c).version
  {
    Api.Spec(c.version, Api.EMPTY_NETWORKING, Api.EMPTY_FEATURES, Api.EMPTY_CLUSTER)
  }

  /** What writing a file and reading it as a spec does to its content. */
  function Normalise(c: Config): Config {
    MapFromClusterConfig(MapToClusterConfig(c))
  }

  predicate IsBoolText(s: string) {
    s == "true" || s == "false"
  }

  /** Files that rewriting leaves as they are: exact booleans and no feature versions. */
  predicate IsNormal(c: Config) {
    && IsBoolText(c.features.virt.enabled) && IsBoolText(c.features.virt.managed)
    && IsBoolText(c.features.argocd.enabled) && IsBoolText(c.features.argocd.managed)
    && c.features.virt.version == "" && c.features.argocd.version == ""
  }

  /** Rewriting a file is idempotent, keeps its meaning, and changes it unless it is normal. */
  lemma Normalisation(c: Config)
    ensures Normalise(Normalise(c)) == Normalise(c)
    ensures MapToClusterConfig(Normalise(c)) == MapToClusterConfig(c)
    ensures Normalise(c) == c <==> IsNormal(c)
  {
    assert !SaysTrue("false") && SaysTrue("true");
    hide SaysTrue, Lower;
  }

  // ---------------------------------------------------------------- emptiness guards

  predicate IsEmptyConfigFile(c: Config) {
    c.version == ""
  }

  predicate IsEmptyK8sConfig(s: Api.Spec) {
    s.version == "" || s.networking.cniType == "" || s.networking.iface.dev == ""
  }

  predicate IsEmptyConfigStruct(c: Config) {
    || c.version == "" || c.networking.cniType == "" || c.networking.iface.dev == ""
    || Size(Marshal(c)) < 50
  }

  /** The length test never fires, so the guard on the converted record repeats the guard on the spec. */
  lemma SecondGuardIsRedundant(s: Api.Spec)
    ensures IsEmptyConfigStruct(ConvertToConfig(s)) <==> IsEmptyK8sConfig(s)
  {
    MarshalIsLong(ConvertToConfig(s));
  }

  // ---------------------------------------------------------------- merge

  /** A configuration held through a pointer. */
  class ConfigRef {
    var value: Config

    constructor (c: Config)
      ensures value == c
    {
      value := c;
    }
  }

  /** The record `mergeConfigs` leaves behind its argument: the spec's values and, of the file's
      own, the two feature versions. */
  function Merged(file: Config, s: Api.Spec): (c: Config)
    ensures MapToClusterConfig(c) == s
    ensures c.features.virt.version == file.features.virt.version
    ensures c.features.argocd.version == file.features.argocd.version
  {
    var base := MapFromClusterConfig(s);
    base.(features := Features(base.features.virt.(version := file.features.virt.version),
                               base.features.argocd.(version := file.features.argocd.version)))
  }

  /** `mergeConfigs`: the result is the argument itself, overwritten field by field. */
  method MergeConfigs(fileConfig: ConfigRef, spec: Api.Spec) returns (merged: ConfigRef)
    modifies fileConfig
    ensures merged == fileConfig
    ensures merged.value == Merged(old(fileConfig.value), spec)
  {
    merged := fileConfig;
    var net, iface := merged.value.networking, merged.value.networking.iface;
    merged.value := merged.value.(version := spec.version);
    net := net.(cniType := spec.networking.cniType);
    net := net.(firewalldEnabled := spec.networking.firewalldEnabled);
    iface := iface.(dev := spec.networking.iface.dev);
    iface := iface.(ipConfig := spec.networking.iface.ipConfig);
    iface := iface.(ipAddr := spec.networking.iface.ipAddr);
    iface := iface.(gateway := spec.networking.iface.gateway);
    iface := iface.(subnetMask := spec.networking.iface.subnetMask);
    iface := iface.(dns := spec.networking.iface.dns);
    iface := iface.(dnsSearch := spec.networking.iface.dnsSearch);
    merged.value := merged.value.(networking := net.(iface := iface));

    var virt, argo := merged.value.features.virt, merged.value.features.argocd;
    virt := virt.(enabled := BoolText(spec.features.virt.enabled));
    virt := virt.(managed := BoolText(spec.features.virt.managed));
    virt := virt.(emulation := spec.features.virt.emulation);
    argo := argo.(enabled := BoolText(spec.features.argocd.enabled));
    argo := argo.(managed := BoolText(spec.features.argocd.managed));
    merged.value := merged.value.(features := Features(virt, argo));

    var cluster, ha := merged.value.cluster, merged.value.cluster.ha;
    cluster := cluster.(apiEndPointUseHostName := spec.cluster.apiEndPointUseHostName);
    cluster := cluster.(customApiEndPoint := spec.cluster.customApiEndPoint);
    ha := ha.(iface := spec.cluster.ha.iface);
    ha := ha.(kind := spec.cluster.ha.kind);
    ha := ha.(apiControlEndpoint := spec.cluster.ha.apiControlEndpoint);
    ha := ha.(apiControlEndpointSubnetSize := spec.cluster.ha.apiControlEndpointSubnetSize);
    merged.value := merged.value.(cluster := cluster.(ha := ha));
  }
}
