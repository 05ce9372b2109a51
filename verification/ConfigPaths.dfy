/** Where each setting stands in the text of the configuration file, and what reading makes of text
    that the operator did not write itself. */
module ConfigPaths {
  import opened Prelude
  import opened Json
  import opened ConfigFile
  import Api = ClusterApi

  /** The value of the first field with this key. */
  function Get(fields: seq<Field>, key: string): Option<Json> {
    if fields == [] then None
    else if fields[0].key == key then Some(fields[0].value)
    else Get(fields[1..], key)
  }

  /** The text found by following keys from the outside in. */
  function At(j: Json, path: seq<string>): Option<string>
    decreases |path|
  {
    if path == [] then (if j.Str? then Some(j.text) else None)
    else if !j.Obj? || Get(j.fields, path[0]).None? then None
    else At(Get(j.fields, path[0]).value, path[1..])
  }

  lemma {:induction false} GetEncoded(tags: seq<Tag>, parts: seq<Value>, k: nat)
    requires FitAll(tags, parts) && DifferentKeys(tags) && k < |tags|
    ensures Get(EncodeParts(tags, parts), tags[k].key)
         == if Omitted(tags[k].schema, parts[k]) then None else Some(Encode(tags[k].schema, parts[k]))
    decreases |tags|
  {
    hide Encode, Omitted;
    var rest := EncodeParts(tags[1..], parts[1..]);
    if k > 0 {
      GetEncoded(tags[1..], parts[1..], k - 1);
      if !Omitted(tags[0].schema, parts[0]) {
        var first := Field(tags[0].key, Encode(tags[0].schema, parts[0]));
        assert EncodeParts(tags, parts) == [first] + rest;
        assert ([first] + rest)[1..] == rest;
      } else {
        assert EncodeParts(tags, parts) == rest;
      }
    } else if Omitted(tags[0].schema, parts[0]) {
      assert EncodeParts(tags, parts) == rest;
      NoSuchKey(tags[1..], parts[1..], tags[0].key);
    } else {
      assert EncodeParts(tags, parts)[0] == Field(tags[0].key, Encode(tags[0].schema, parts[0]));
    }
  }

  lemma {:induction false} NoSuchKey(tags: seq<Tag>, parts: seq<Value>, key: string)
    requires FitAll(tags, parts) && forall i :: 0 <= i < |tags| ==> tags[i].key != key
    ensures Get(EncodeParts(tags, parts), key) == None
    decreases |tags|
  {
    hide Encode, Omitted;
    if tags != [] {
      NoSuchKey(tags[1..], parts[1..], key);
      var rest := EncodeParts(tags[1..], parts[1..]);
      if !Omitted(tags[0].schema, parts[0]) {
        var first := Field(tags[0].key, Encode(tags[0].schema, parts[0]));
        assert EncodeParts(tags, parts) == [first] + rest;
        assert ([first] + rest)[1..] == rest;
      } else {
        assert EncodeParts(tags, parts) == rest;
      }
    }
  }

  /** One step down an encoded record. */
  lemma Down(tags: seq<Tag>, v: Value, k: nat, rest: seq<string>)
    requires Fits(Struct(tags), v) && DifferentKeys(tags) && k < |tags| && tags[k].schema.Struct?
    ensures At(Encode(Struct(tags), v), [tags[k].key] + rest) == At(Encode(tags[k].schema, v.parts[k]), rest)
  {
    GetEncoded(tags, v.parts, k);
    hide EncodeParts, Get;
    assert ([tags[k].key] + rest)[1..] == rest;
  }

  /** The text at its end; an optional one is only there when it is not empty. */
  lemma Leaf(tags: seq<Tag>, v: Value, k: nat)
    requires Fits(Struct(tags), v) && DifferentKeys(tags) && k < |tags| && tags[k].schema.Text?
    ensures At(Encode(Struct(tags), v), [tags[k].key])
         == if tags[k].schema.omitEmpty && TextAt(tags, v, k) == "" then None else Some(TextAt(tags, v, k))
  {
    GetEncoded(tags, v.parts, k);
    hide EncodeParts, Get;
    assert [tags[k].key][1..] == [];
  }

  /** How an optional setting is written. */
  function IfAny(text: string): Option<string> {
    if text == "" then None else Some(text)
  }

  /** The settings of the network interface, under the keys of the file. */
  lemma InterfacePaths(i: ConfigFile.Interface)
    ensures var j := Encode(Struct(IFACE_TAGS), InterfaceValue(i));
            && At(j, ["dev"]) == Some(i.dev) && At(j, ["ipconfig"]) == Some(i.ipConfig)
            && At(j, ["ipaddr"]) == IfAny(i.ipAddr) && At(j, ["gateway"]) == IfAny(i.gateway)
            && At(j, ["subnet_mask"]) == IfAny(i.subnetMask) && At(j, ["dns"]) == IfAny(i.dns)
            && At(j, ["dns_search"]) == IfAny(i.dnsSearch)
  {
    InterfaceTagsDistinct();
    var v := InterfaceValue(i);
    hide At, Encode;
    Leaf(IFACE_TAGS, v, 0);
    Leaf(IFACE_TAGS, v, 1);
    Leaf(IFACE_TAGS, v, 2);
    Leaf(IFACE_TAGS, v, 3);
    Leaf(IFACE_TAGS, v, 4);
    Leaf(IFACE_TAGS, v, 5);
    Leaf(IFACE_TAGS, v, 6);
  }

  lemma Under(tags: seq<Tag>, v: Value, k: nat, outer: string, inner: string)
    requires Fits(Struct(tags), v) && DifferentKeys(tags) && k < |tags| && tags[k] == Tag(outer, tags[k].schema)
    requires tags[k].schema.Struct?
    ensures At(Encode(Struct(tags), v), [outer, inner]) == At(Encode(tags[k].schema, Part(tags, v, k)), [inner])
  {
    Down(tags, v, k, [inner]);
    assert [outer] + [inner] == [outer, inner];
  }

  lemma NetworkingTagsDiffer()
    ensures DifferentKeys(NETWORKING_TAGS) && DifferentKeys(CNI_TAGS) && DifferentKeys(FIREWALLD_TAGS)
  {
  }

  lemma CniPath(n: ConfigFile.Networking)
    ensures At(Encode(Struct(NETWORKING_TAGS), NetworkingValue(n)), ["cni", "type"]) == Some(n.cniType)
  {
    var v := NetworkingValue(n);
    NetworkingTagsDiffer();
    hide At, Encode;
    Under(NETWORKING_TAGS, v, 0, "cni", "type");
    Leaf(CNI_TAGS, v.parts[0], 0);
  }

  lemma FirewalldPath(n: ConfigFile.Networking)
    ensures At(Encode(Struct(NETWORKING_TAGS), NetworkingValue(n)), ["firewalld", "enabled"])
         == Some(n.firewalldEnabled)
  {
    var v := NetworkingValue(n);
    NetworkingTagsDiffer();
    hide At, Encode;
    Under(NETWORKING_TAGS, v, 1, "firewalld", "enabled");
    Leaf(FIREWALLD_TAGS, v.parts[1], 0);
  }

  lemma IfacePath(n: ConfigFile.Networking, key: string)
    ensures At(Encode(Struct(NETWORKING_TAGS), NetworkingValue(n)), ["iface", key])
         == At(Encode(Struct(IFACE_TAGS), InterfaceValue(n.iface)), [key])
  {
    var v := NetworkingValue(n);
    NetworkingTagsDiffer();
    hide At, Encode;
    Under(NETWORKING_TAGS, v, 2, "iface", key);
  }

  lemma VirtPaths(f: ConfigFile.Features)
    ensures var j := Encode(Struct(FEATURES_TAGS), FeaturesValue(f));
            && At(j, ["virt", "enabled"]) == Some(f.virt.enabled)
            && At(j, ["virt", "managed"]) == IfAny(f.virt.managed)
            && At(j, ["virt", "version"]) == IfAny(f.virt.version)
            && At(j, ["virt", "emulation"]) == Some(f.virt.emulation)
  {
    var v := FeaturesValue(f);
    FeatureTagsDistinct();
    hide At, Encode;
    Under(FEATURES_TAGS, v, 0, "virt", "enabled");
    Under(FEATURES_TAGS, v, 0, "virt", "managed");
    Under(FEATURES_TAGS, v, 0, "virt", "version");
    Under(FEATURES_TAGS, v, 0, "virt", "emulation");
    FeatureTagsDiffer();
    Leaf(VIRT_TAGS, v.parts[0], 0);
    Leaf(VIRT_TAGS, v.parts[0], 1);
    Leaf(VIRT_TAGS, v.parts[0], 2);
    Leaf(VIRT_TAGS, v.parts[0], 3);
  }

  lemma FeatureTagsDiffer()
    ensures DifferentKeys(VIRT_TAGS) && DifferentKeys(ARGOCD_TAGS) && DifferentKeys(FEATURES_TAGS)
  {
    FeatureTagsDistinct();
  }

  lemma ArgoPaths(f: ConfigFile.Features)
    ensures var j := Encode(Struct(FEATURES_TAGS), FeaturesValue(f));
            && At(j, ["argocd", "enabled"]) == Some(f.argocd.enabled)
            && At(j, ["argocd", "managed"]) == IfAny(f.argocd.managed)
            && At(j, ["argocd", "version"]) == IfAny(f.argocd.version)
  {
    var v := FeaturesValue(f);
    FeatureTagsDiffer();
    hide At, Encode;
    Under(FEATURES_TAGS, v, 1, "argocd", "enabled");
    Under(FEATURES_TAGS, v, 1, "argocd", "managed");
    Under(FEATURES_TAGS, v, 1, "argocd", "version");
    Leaf(ARGOCD_TAGS, v.parts[1], 0);
    Leaf(ARGOCD_TAGS, v.parts[1], 1);
    Leaf(ARGOCD_TAGS, v.parts[1], 2);
  }

  lemma ClusterTagsDiffer()
    ensures DifferentKeys(CLUSTER_TAGS) && DifferentKeys(HA_TAGS)
  {
  }

  lemma ClusterPaths(c: ConfigFile.Cluster)
    ensures var j := Encode(Struct(CLUSTER_TAGS), ClusterValue(c));
            && At(j, ["apiEndPointUseHostName"]) == Some(c.apiEndPointUseHostName)
            && At(j, ["customApiEndPoint"]) == IfAny(c.customApiEndPoint)
            && At(j, ["ha", "interface"]) == Some(c.ha.iface)
            && At(j, ["ha", "type"]) == Some(c.ha.kind)
            && At(j, ["ha", "apiControlEndpoint"]) == IfAny(c.ha.apiControlEndpoint)
            && At(j, ["ha", "apiControlEndpointSubnetSize"]) == IfAny(c.ha.apiControlEndpointSubnetSize)
  {
    var v := ClusterValue(c);
    ClusterTagsDiffer();
    hide At, Encode;
    Leaf(CLUSTER_TAGS, v, 0);
    Leaf(CLUSTER_TAGS, v, 1);
    Under(CLUSTER_TAGS, v, 2, "ha", "interface");
    Under(CLUSTER_TAGS, v, 2, "ha", "type");
    Under(CLUSTER_TAGS, v, 2, "ha", "apiControlEndpoint");
    Under(CLUSTER_TAGS, v, 2, "ha", "apiControlEndpointSubnetSize");
    Leaf(HA_TAGS, v.parts[2], 0);
    Leaf(HA_TAGS, v.parts[2], 1);
    Leaf(HA_TAGS, v.parts[2], 2);
    Leaf(HA_TAGS, v.parts[2], 3);
  }

  /** The four sections of the file, and its version. */
  lemma TopPaths(c: Config, path: seq<string>)
    ensures var j := Marshal(c);
            && At(j, ["version"]) == Some(c.version)
            && At(j, ["networking"] + path) == At(Encode(Struct(NETWORKING_TAGS), NetworkingValue(c.networking)), path)
            && At(j, ["features"] + path) == At(Encode(Struct(FEATURES_TAGS), FeaturesValue(c.features)), path)
            && At(j, ["cluster"] + path) == At(Encode(Struct(CLUSTER_TAGS), ClusterValue(c.cluster)), path)
  {
    var v := ConfigValue(c);
    TagsDistinct();
    hide At, Encode, NetworkingValue, FeaturesValue, ClusterValue, DistinctKeys;
    TopTagsDiffer();
    Leaf(CONFIG_TAGS, v, 0);
    Down(CONFIG_TAGS, v, 1, path);
    Down(CONFIG_TAGS, v, 2, path);
    Down(CONFIG_TAGS, v, 3, path);
  }

  lemma TopTagsDiffer()
    ensures DifferentKeys(CONFIG_TAGS)
  {
    assert "version"[0] != "cluster"[0];
  }

  // ---------------------------------------------------------------- the whole file

  /** Where every setting of the network stands. */
  lemma NetworkSettings(c: Config)
    ensures var j := Marshal(c); var n := c.networking; var i := c.networking.iface;
            && At(j, ["version"]) == Some(c.version)
            && At(j, ["networking", "cni", "type"]) == Some(n.cniType)
            && At(j, ["networking", "firewalld", "enabled"]) == Some(n.firewalldEnabled)
            && At(j, ["networking", "iface", "dev"]) == Some(i.dev)
            && At(j, ["networking", "iface", "ipconfig"]) == Some(i.ipConfig)
            && At(j, ["networking", "iface", "ipaddr"]) == IfAny(i.ipAddr)
            && At(j, ["networking", "iface", "gateway"]) == IfAny(i.gateway)
            && At(j, ["networking", "iface", "subnet_mask"]) == IfAny(i.subnetMask)
            && At(j, ["networking", "iface", "dns"]) == IfAny(i.dns)
            && At(j, ["networking", "iface", "dns_search"]) == IfAny(i.dnsSearch)
  {
    var n := c.networking;
    hide At, Encode, Marshal, NetworkingValue, InterfaceValue;
    CniPath(n);
    FirewalldPath(n);
    InterfacePaths(n.iface);
    Section(c, "networking", "cni", "type");
    Section(c, "networking", "firewalld", "enabled");
    IfaceSetting(c, "dev");
    IfaceSetting(c, "ipconfig");
    IfaceSetting(c, "ipaddr");
    IfaceSetting(c, "gateway");
    IfaceSetting(c, "subnet_mask");
    IfaceSetting(c, "dns");
    IfaceSetting(c, "dns_search");
    TopPaths(c, []);
  }

  lemma Section(c: Config, section: string, outer: string, inner: string)
    ensures section == "networking" ==>
              At(Marshal(c), [section, outer, inner])
              == At(Encode(Struct(NETWORKING_TAGS), NetworkingValue(c.networking)), [outer, inner])
    ensures section == "features" ==>
              At(Marshal(c), [section, outer, inner])
              == At(Encode(Struct(FEATURES_TAGS), FeaturesValue(c.features)), [outer, inner])
    ensures section == "cluster" ==>
              At(Marshal(c), [section, outer, inner])
              == At(Encode(Struct(CLUSTER_TAGS), ClusterValue(c.cluster)), [outer, inner])
  {
    hide At, Encode, Marshal, NetworkingValue, FeaturesValue, ClusterValue;
    TopPaths(c, [outer, inner]);
    assert [section] + [outer, inner] == [section, outer, inner];
  }

  lemma IfaceSetting(c: Config, key: string)
    ensures At(Marshal(c), ["networking", "iface", key])
         == At(Encode(Struct(IFACE_TAGS), InterfaceValue(c.networking.iface)), [key])
  {
    hide At, Encode, Marshal, NetworkingValue, InterfaceValue;
    Section(c, "networking", "iface", key);
    IfacePath(c.networking, key);
  }

  /** Where every setting of the features stands. */
  lemma FeatureSettings(c: Config)
    ensures var j := Marshal(c); var virt := c.features.virt; var argocd := c.features.argocd;
            && At(j, ["features", "virt", "enabled"]) == Some(virt.enabled)
            && At(j, ["features", "virt", "managed"]) == IfAny(virt.managed)
            && At(j, ["features", "virt", "version"]) == IfAny(virt.version)
            && At(j, ["features", "virt", "emulation"]) == Some(virt.emulation)
            && At(j, ["features", "argocd", "enabled"]) == Some(argocd.enabled)
            && At(j, ["features", "argocd", "managed"]) == IfAny(argocd.managed)
            && At(j, ["features", "argocd", "version"]) == IfAny(argocd.version)
  {
    hide At, Encode, Marshal, FeaturesValue;
    VirtPaths(c.features);
    ArgoPaths(c.features);
    Section(c, "features", "virt", "enabled");
    Section(c, "features", "virt", "managed");
    Section(c, "features", "virt", "version");
    Section(c, "features", "virt", "emulation");
    Section(c, "features", "argocd", "enabled");
    Section(c, "features", "argocd", "managed");
    Section(c, "features", "argocd", "version");
  }

  /** Where every setting of the cluster stands. */
  lemma ClusterSettings(c: Config)
    ensures var j := Marshal(c); var cluster := c.cluster; var ha := c.cluster.ha;
            && At(j, ["cluster", "apiEndPointUseHostName"]) == Some(cluster.apiEndPointUseHostName)
            && At(j, ["cluster", "customApiEndPoint"]) == IfAny(cluster.customApiEndPoint)
            && At(j, ["cluster", "ha", "interface"]) == Some(ha.iface)
            && At(j, ["cluster", "ha", "type"]) == Some(ha.kind)
            && At(j, ["cluster", "ha", "apiControlEndpoint"]) == IfAny(ha.apiControlEndpoint)
            && At(j, ["cluster", "ha", "apiControlEndpointSubnetSize"]) == IfAny(ha.apiControlEndpointSubnetSize)
  {
    hide At, Encode, Marshal, ClusterValue;
    ClusterPaths(c.cluster);
    TopPaths(c, ["apiEndPointUseHostName"]);
    assert ["cluster"] + ["apiEndPointUseHostName"] == ["cluster", "apiEndPointUseHostName"];
    TopPaths(c, ["customApiEndPoint"]);
    assert ["cluster"] + ["customApiEndPoint"] == ["cluster", "customApiEndPoint"];
    Section(c, "cluster", "ha", "interface");
    Section(c, "cluster", "ha", "type");
    Section(c, "cluster", "ha", "apiControlEndpoint");
    Section(c, "cluster", "ha", "apiControlEndpointSubnetSize");
  }

  // ---------------------------------------------------------------- the resource's fields

  /** The resource takes every setting of the file into the field of the same name, texts as they
      are, and the four switches as true when they say so in any case. */
  lemma FieldsKeepTheirPlaces(c: Config)
    ensures var s := MapToClusterConfig(c); var n, i := s.networking, s.networking.iface;
            && s.version == c.version
            && n.cniType == c.networking.cniType && n.firewalldEnabled == c.networking.firewalldEnabled
            && i.dev == c.networking.iface.dev && i.ipConfig == c.networking.iface.ipConfig
            && i.ipAddr == c.networking.iface.ipAddr && i.gateway == c.networking.iface.gateway
            && i.subnetMask == c.networking.iface.subnetMask && i.dns == c.networking.iface.dns
            && i.dnsSearch == c.networking.iface.dnsSearch
            && (s.features.virt.enabled <==> Lower(c.features.virt.enabled) == "true")
            && (s.features.virt.managed <==> Lower(c.features.virt.managed) == "true")
            && s.features.virt.emulation == c.features.virt.emulation
            && (s.features.argocd.enabled <==> Lower(c.features.argocd.enabled) == "true")
            && (s.features.argocd.managed <==> Lower(c.features.argocd.managed) == "true")
            && s.cluster.apiEndPointUseHostName == c.cluster.apiEndPointUseHostName
            && s.cluster.customApiEndPoint == c.cluster.customApiEndPoint
            && s.cluster.ha.iface == c.cluster.ha.iface && s.cluster.ha.kind == c.cluster.ha.kind
            && s.cluster.ha.apiControlEndpoint == c.cluster.ha.apiControlEndpoint
            && s.cluster.ha.apiControlEndpointSubnetSize == c.cluster.ha.apiControlEndpointSubnetSize
  {
  }

  // ---------------------------------------------------------------- text from elsewhere

  /** A field under a key that is none of the record's own, in whatever case, is read over. */
  lemma {:induction false} UnknownFieldsAreSkipped(tags: seq<Tag>, parts: seq<Value>, before: seq<Field>, x: Field,
                                                   after: seq<Field>)
    requires FitAll(tags, parts) && forall i :: 0 <= i < |tags| ==> Lower(tags[i].key) != Lower(x.key)
    ensures DecodeFields(tags, parts, before + [x] + after) == DecodeFields(tags, parts, before + after)
    decreases |before|
  {
    hide DecodeInto, FindExact, FindFolded;
    if before == [] {
      assert Find(tags, x.key) == |tags|;
      assert before + [x] + after == [x] + after && ([x] + after)[1..] == after && before + after == after;
    } else {
      var all, less := before + [x] + after, before + after;
      assert all[0] == before[0] == less[0];
      assert all[1..] == before[1..] + [x] + after && less[1..] == before[1..] + after;
      var k := Find(tags, before[0].key);
      if k == |tags| {
        UnknownFieldsAreSkipped(tags, parts, before[1..], x, after);
      } else {
        var v := DecodeInto(tags[k].schema, parts[k], before[0].value);
        if v.Some? { UnknownFieldsAreSkipped(tags, parts[k := v.value], before[1..], x, after); }
      }
    }
  }

  /** A key in other letters' case is read like the record's own, when no other field claims it. */
  lemma CaseDoesNotMatter(tags: seq<Tag>, parts: seq<Value>, k: nat, key: string, value: Json, rest: seq<Field>)
    requires FitAll(tags, parts) && k < |tags| && Lower(key) == Lower(tags[k].key)
    requires forall i :: 0 <= i < |tags| && i != k ==> Lower(tags[i].key) != Lower(tags[k].key)
    ensures DecodeFields(tags, parts, [Field(key, value)] + rest)
         == DecodeFields(tags, parts, [Field(tags[k].key, value)] + rest)
  {
    var one, other := [Field(key, value)] + rest, [Field(tags[k].key, value)] + rest;
    assert one[0] == Field(key, value) && other[0] == Field(tags[k].key, value) && one[1..] == rest == other[1..];
    assert Find(tags, key) == k && Find(tags, tags[k].key) == k by {
      hide DecodeFields;
      assert forall i :: 0 <= i < |tags| && i != k ==> tags[i].key != tags[k].key && tags[i].key != key;
    }
    hide DecodeInto, Find, Lower;
  }

  /** Of a repeated setting the last one counts, and `null` leaves the one before. */
  lemma LastTextCounts(tags: seq<Tag>, parts: seq<Value>, k: nat, a: string, b: string)
    requires FitAll(tags, parts) && DifferentKeys(tags) && k < |tags| && tags[k].schema.Text?
    ensures var key := tags[k].key;
            && DecodeFields(tags, parts, [Field(key, Str(a)), Field(key, Str(b))])
               == DecodeFields(tags, parts, [Field(key, Str(b))])
            && DecodeFields(tags, parts, [Field(key, Str(a)), Field(key, Null)])
               == DecodeFields(tags, parts, [Field(key, Str(a))])
  {
    var key := tags[k].key;
    FindOwnKey(tags, k);
    ReadField(tags, parts, Field(key, Str(a)), k, Value.Leaf(a), [Field(key, Str(b))]);
    ReadField(tags, parts, Field(key, Str(a)), k, Value.Leaf(a), [Field(key, Null)]);
    var once := parts[k := Value.Leaf(a)];
    ReadField(tags, once, Field(key, Str(b)), k, Value.Leaf(b), []);
    ReadField(tags, once, Field(key, Null), k, Value.Leaf(a), []);
    ReadField(tags, parts, Field(key, Str(a)), k, Value.Leaf(a), []);
    ReadField(tags, parts, Field(key, Str(b)), k, Value.Leaf(b), []);
    assert once[k := Value.Leaf(b)] == parts[k := Value.Leaf(b)] && once[k := Value.Leaf(a)] == once;
    hide DecodeFields;
    assert [Field(key, Str(a))] + [Field(key, Str(b))] == [Field(key, Str(a)), Field(key, Str(b))];
    assert [Field(key, Str(a))] + [Field(key, Null)] == [Field(key, Str(a)), Field(key, Null)];
    assert [Field(key, Str(b))] + [] == [Field(key, Str(b))] && [Field(key, Null)] + [] == [Field(key, Null)];
    assert [Field(key, Str(a))] + [] == [Field(key, Str(a))];
  }
}
