/** Applying and deleting the documents of a manifest (internal/controller/downloader). */
module Manifests {
  import opened Prelude

  /** The server knows an object by group and kind, under whatever version it is sent. */
  datatype Key = Key(group: string, kind: string, namespace: string, name: string)

  /** One document of the stream: a decoding error, an empty document, or an object, its
      `apiVersion` split into group and version. */
  datatype Doc = Malformed | Blank | Object(key: Key, version: string, body: string)

  type Store = map<Key, string>

  /** The API refuses an object without kind or version. */
  predicate Named(d: Doc) {
    d.Object? && d.version != "" && d.key.kind != ""
  }

  /** Documents applied one after the other; those that name no object leave the store alone. */
  function Overlay(m: Store, docs: seq<Doc>): Store
    decreases |docs|
  {
    if docs == [] then m
    else Overlay(if Named(docs[0]) then m[docs[0].key := docs[0].body] else m, docs[1..])
  }

  function KeysOf(docs: seq<Doc>): set<Key> {
    set i | 0 <= i < |docs| && Named(docs[i]) :: docs[i].key
  }

  /** What may happen between the two calls for one document, or to them: the reading or the writing
      call fails, or another client writes the object in between. */
  datatype Interference = ReadFails | WriteFails | Overtaken(body: string)

  /** Applying stops at a document that does not decode, that the API refuses, or that something
      interferes with. */
  predicate Stops(docs: seq<Doc>, faults: map<nat, Interference>, i: nat)
    requires i < |docs|
  {
    docs[i].Malformed? || (docs[i].Object? && (!Named(docs[i]) || i in faults))
  }

  /** The store when applying ended at document `n`: all before it, and in place of an overtaken
      one what the other client wrote. */
  function Ended(m: Store, docs: seq<Doc>, faults: map<nat, Interference>, n: nat): Store
    requires n <= |docs|
  {
    var done := Overlay(m, docs[..n]);
    if n < |docs| && Named(docs[n]) && n in faults && faults[n].Overtaken? then done[docs[n].key := faults[n].body]
    else done
  }

  /** An object as the server holds it; every write gives it a new version. */
  datatype Held = Held(body: string, version: nat)

  function Bodies(objects: map<Key, Held>): Store {
    map k | k in objects :: objects[k].body
  }

  class ApiServer {
    var objects: map<Key, Held>
    var next: nat

    ghost predicate Valid()
      reads this
    {
      forall k :: k in objects ==> objects[k].version < next
    }

    constructor ()
      ensures Valid() && objects == map[]
    {
      objects, next := map[], 0;
    }

    method Put(key: Key, body: string)
      requires Valid()
      modifies this
      ensures Valid() && objects == old(objects)[key := Held(body, old(next))] && next == old(next) + 1
    {
      objects := objects[key := Held(body, next)];
      next := next + 1;
    }

    /** Creating demands that there is no such object, updating that it is the version that was
        read: what another client wrote in the meantime is never written over. */
    method CreateOrUpdateResource(key: Key, body: string, interference: Option<Interference>) returns (ok: bool)
      requires Valid()
      modifies this
      ensures Valid()
      ensures ok <==> interference.None?
      ensures Bodies(objects) == match interference
                case None => Bodies(old(objects))[key := body]
                case Some(Overtaken(other)) => Bodies(old(objects))[key := other]
                case Some(_) => Bodies(old(objects))
    {
      if interference == Some(ReadFails) { return false; }
      var seen: Option<nat> := if key in objects then Some(objects[key].version) else None;
      if interference.Some? && interference.value.Overtaken? { Put(key, interference.value.body); }
      if interference == Some(WriteFails) { return false; }
      if seen.None? {
        if key in objects { return false; }
      } else {
        if key !in objects || objects[key].version != seen.value { return false; }
      }
      Put(key, body);
      return true;
    }

    /** `n` documents take effect. */
    method ApplyYAML(docs: seq<Doc>, faults: map<nat, Interference>) returns (ok: bool, n: nat)
      requires Valid()
      modifies this
      ensures Valid()
      ensures n <= |docs|
      ensures Bodies(objects) == Ended(Bodies(old(objects)), docs, faults, n)
      ensures ok <==> n == |docs|
      ensures n < |docs| ==> Stops(docs, faults, n)
      ensures forall i :: 0 <= i < n ==> !Stops(docs, faults, i)
    {
      hide Overlay, Bodies;
      n := 0;
      assert Overlay(Bodies(objects), docs[..0]) == Bodies(objects) by { OverlayNone(Bodies(objects)); }
      while n < |docs|
        invariant n <= |docs| && Valid()
        invariant Bodies(objects) == Overlay(Bodies(old(objects)), docs[..n])
        invariant forall i :: 0 <= i < n ==> !Stops(docs, faults, i)
      {
        var d := docs[n];
        OverlayMore(Bodies(old(objects)), docs, n);
        if d.Malformed? { return false, n; }
        if d.Object? {
          if !Named(d) { return false, n; }
          ok := CreateOrUpdateResource(d.key, d.body, if n in faults then Some(faults[n]) else None);
          if !ok { return false, n; }
        }
        n := n + 1;
      }
      assert docs[..n] == docs;
      return true, n;
    }

    method Delete(key: Key, fails: bool) returns (deleted: bool)
      requires Valid()
      modifies this`objects
      ensures Valid()
      ensures deleted <==> !fails && key in old(objects)
      ensures objects == if deleted then Without(old(objects), {key}) else old(objects)
    {
      if fails || key !in objects { return false; }
      objects := Without(objects, {key});
      return true;
    }

    /** Documents that do not decode or name no object are skipped, and a failing delete is not the
        end: only the faulty positions keep their objects. */
    method DeleteYAML(docs: seq<Doc>, faults: set<nat>) returns (count: nat)
      requires Valid()
      modifies this
      ensures Valid() && objects == Without(old(objects), DeletedKeys(docs, faults))
      ensures Bodies(objects) == Without(Bodies(old(objects)), DeletedKeys(docs, faults))
      ensures count == |old(objects).Keys * DeletedKeys(docs, faults)|
    {
      ghost var m := objects;
      count := 0;
      var n := 0;
      DeletedNone(docs, faults, m);
      BodiesWithout(m, DeletedKeys(docs, faults));
      hide DeletedKeys, Without, Bodies, Valid;
      while n < |docs|
        invariant n <= |docs| && Valid()
        invariant objects == Without(m, DeletedKeys(docs[..n], faults))
        invariant count == |m.Keys * DeletedKeys(docs[..n], faults)|
      {
        var d := docs[n];
        ghost var gone := DeletedKeys(docs[..n], faults);
        DeletedMore(docs, faults, n);
        if Named(d) {
          if n !in faults {
            if d.key in objects { OneGone(m, gone, d.key); } else { NoneGone(m, gone, d.key); }
          }
          var deleted := Delete(d.key, n in faults);
          if deleted { count := count + 1; }
        }
        n := n + 1;
      }
      assert docs[..n] == docs;
    }
  }

  function DeletedKeys(docs: seq<Doc>, faults: set<nat>): set<Key> {
    set i | 0 <= i < |docs| && Named(docs[i]) && i !in faults :: docs[i].key
  }

  lemma BodiesWithout(m: map<Key, Held>, keys: set<Key>)
    ensures Bodies(Without(m, keys)) == Without(Bodies(m), keys)
  {
  }

  lemma OverlayNone(m: Store)
    ensures forall docs: seq<Doc> :: Overlay(m, docs[..0]) == m
  {
  }

  lemma DeletedNone<V>(docs: seq<Doc>, faults: set<nat>, m: map<Key, V>)
    ensures DeletedKeys(docs[..0], faults) == {}
    ensures m.Keys * DeletedKeys(docs[..0], faults) == {}
    ensures Without(m, DeletedKeys(docs[..0], faults)) == m
  {
    assert DeletedKeys(docs[..0], faults) == {};
  }

  /** Taking one more key out of a store that has lost the keys `gone`. */
  lemma OneGone<V>(m: map<Key, V>, gone: set<Key>, k: Key)
    requires k in m.Keys - gone
    ensures Without(Without(m, gone), {k}) == Without(m, gone + {k})
    ensures |m.Keys * (gone + {k})| == |m.Keys * gone| + 1
  {
    assert |m.Keys * (gone + {k})| == |m.Keys * gone| + 1 by {
      assert m.Keys * (gone + {k}) == m.Keys * gone + {k};
    }
    var one, all := Without(Without(m, gone), {k}), Without(m, gone + {k});
    hide Without;
    assert one.Keys == all.Keys;
  }

  lemma NoneGone<V>(m: map<Key, V>, gone: set<Key>, k: Key)
    requires k !in m.Keys - gone
    ensures Without(m, gone) == Without(m, gone + {k})
    ensures m.Keys * (gone + {k}) == m.Keys * gone
  {
    assert k in m ==> k in gone;
    var none, all := Without(m, gone), Without(m, gone + {k});
    hide Without;
    assert none.Keys == all.Keys;
  }

  lemma DeletedMore(docs: seq<Doc>, faults: set<nat>, n: nat)
    requires n < |docs|
    ensures DeletedKeys(docs[..n + 1], faults)
         == if Named(docs[n]) && n !in faults then DeletedKeys(docs[..n], faults) + {docs[n].key}
            else DeletedKeys(docs[..n], faults)
  {
    var all := DeletedKeys(docs[..n + 1], faults);
    forall k | k in DeletedKeys(docs[..n], faults) ensures k in all {
      var i :| 0 <= i < n && Named(docs[..n][i]) && i !in faults && docs[..n][i].key == k;
      assert docs[..n + 1][i].key == k;
    }
    if Named(docs[n]) && n !in faults { assert docs[..n + 1][n].key in all; }
    forall k | k in all
      ensures k in DeletedKeys(docs[..n], faults) || (Named(docs[n]) && n !in faults && k == docs[n].key)
    {
      var i :| 0 <= i < n + 1 && Named(docs[..n + 1][i]) && i !in faults && docs[..n + 1][i].key == k;
      if i < n { assert docs[..n][i].key == k; }
    }
  }

  // ---------------------------------------------------------------- what an overlay is

  lemma {:induction false} OverlayAppend(m: Store, a: seq<Doc>, b: seq<Doc>)
    ensures Overlay(m, a + b) == Overlay(Overlay(m, a), b)
    decreases |a|
  {
    if a == [] {
      assert a + b == b;
    } else {
      assert (a + b)[1..] == a[1..] + b;
      OverlayAppend(if Named(a[0]) then m[a[0].key := a[0].body] else m, a[1..], b);
    }
  }

  lemma OverlayMore(m: Store, docs: seq<Doc>, n: nat)
    requires n < |docs|
    ensures Overlay(m, docs[..n + 1])
         == (if Named(docs[n]) then Overlay(m, docs[..n])[docs[n].key := docs[n].body] else Overlay(m, docs[..n]))
  {
    assert docs[..n + 1] == docs[..n] + [docs[n]];
    OverlayAppend(m, docs[..n], [docs[n]]);
    assert [docs[n]][1..] == [];
  }

  /** `i` holds the last document that names `key`. */
  predicate LastNamed(docs: seq<Doc>, key: Key, i: int) {
    && 0 <= i < |docs| && Named(docs[i]) && docs[i].key == key
    && forall j :: i < j < |docs| && Named(docs[j]) ==> docs[j].key != key
  }

  /** Every object named holds its last document, and every other object is untouched. */
  lemma {:induction false} LastWriterWins(m: Store, docs: seq<Doc>)
    ensures Overlay(m, docs).Keys == m.Keys + KeysOf(docs)
    ensures forall k, i :: LastNamed(docs, k, i) ==> Overlay(m, docs)[k] == docs[i].body
    ensures forall k :: k in m && k !in KeysOf(docs) ==> Overlay(m, docs)[k] == m[k]
    decreases |docs|
  {
    if docs != [] {
      var n := |docs| - 1;
      var head, d := docs[..n], docs[n];
      LastWriterWins(m, head);
      assert docs[..n + 1] == docs;
      OverlayMore(m, docs, n);
      KeysMore(docs, n);
      forall k, i | LastNamed(docs, k, i) ensures Overlay(m, docs)[k] == docs[i].body {
        if i < n {
          assert forall j :: i < j < n && Named(head[j]) ==> docs[j].key != k;
          assert LastNamed(head, k, i);
          assert head[i].key in KeysOf(head);
        }
      }
    }
  }

  lemma KeysMore(docs: seq<Doc>, n: nat)
    requires n < |docs|
    ensures KeysOf(docs[..n + 1]) == KeysOf(docs[..n]) + (if Named(docs[n]) then {docs[n].key} else {})
  {
    DeletedMore(docs, {}, n);
    assert KeysOf(docs[..n]) == DeletedKeys(docs[..n], {});
    assert KeysOf(docs[..n + 1]) == DeletedKeys(docs[..n + 1], {});
  }

  lemma {:induction false} LastExists(docs: seq<Doc>, key: Key) returns (i: nat)
    requires key in KeysOf(docs)
    ensures LastNamed(docs, key, i)
  {
    i :| 0 <= i < |docs| && Named(docs[i]) && docs[i].key == key;
    while !LastNamed(docs, key, i)
      invariant i < |docs| && Named(docs[i]) && docs[i].key == key
      decreases |docs| - i
    {
      var j :| i < j < |docs| && Named(docs[j]) && docs[j].key == key;
      i := j;
    }
  }

  /** An apply that was cut short and is run again in full gives what one full apply gives; in
      particular applying twice changes nothing more. */
  lemma RetryCompletes(m: Store, docs: seq<Doc>, n: nat)
    requires n <= |docs|
    ensures Overlay(Overlay(m, docs[..n]), docs) == Overlay(m, docs)
  {
    var once, twice := Overlay(m, docs), Overlay(Overlay(m, docs[..n]), docs);
    LastWriterWins(m, docs);
    LastWriterWins(m, docs[..n]);
    LastWriterWins(Overlay(m, docs[..n]), docs);
    PrefixKeys(docs, n);
    forall k | k in once ensures twice[k] == once[k] {
      if k in KeysOf(docs) {
        var i := LastExists(docs, k);
      }
    }
  }

  lemma PrefixKeys(docs: seq<Doc>, n: nat)
    requires n <= |docs|
    ensures KeysOf(docs[..n]) <= KeysOf(docs)
  {
    forall k | k in KeysOf(docs[..n]) ensures k in KeysOf(docs) {
      var i :| 0 <= i < n && Named(docs[..n][i]) && docs[..n][i].key == k;
      assert docs[i].key == k;
    }
  }

  /** Deleting the documents after applying them, completely or in part, leaves the store without
      the objects they name; it is the store of before if and only if none of them was there. */
  lemma DeleteUndoesApply(m: Store, docs: seq<Doc>, n: nat)
    requires n <= |docs|
    ensures Without(Overlay(m, docs[..n]), DeletedKeys(docs, {})) == Without(m, KeysOf(docs))
    ensures Without(Overlay(m, docs[..n]), DeletedKeys(docs, {})) == m <==> m.Keys !! KeysOf(docs)
  {
    assert DeletedKeys(docs, {}) == KeysOf(docs);
    LastWriterWins(m, docs[..n]);
    PrefixKeys(docs, n);
    var left := Without(Overlay(m, docs[..n]), KeysOf(docs));
    assert left.Keys == m.Keys - KeysOf(docs);
    forall k | k in left ensures left[k] == m[k] {
      assert k !in KeysOf(docs[..n]);
    }
    if k :| k in m.Keys && k in KeysOf(docs) { assert k !in left; }
  }

  // ---------------------------------------------------------------- which documents count

  /** What is deleted: an object for which some document with kind and version gets its deletion
      through. */
  lemma DeletedMeans(docs: seq<Doc>, faults: set<nat>, k: Key)
    ensures k in DeletedKeys(docs, faults) <==>
              exists i :: 0 <= i < |docs| && docs[i].Object? && docs[i].version != "" && docs[i].key.kind != ""
                && docs[i].key == k && i !in faults
  {
  }

  /** Applying goes on over empty documents, and over objects with kind and version whose calls are
      not interfered with; nothing else. */
  lemma AppliedMeans(docs: seq<Doc>, faults: map<nat, Interference>, i: nat)
    requires i < |docs|
    ensures !Stops(docs, faults, i) <==>
              docs[i].Blank? || (docs[i].Object? && docs[i].version != "" && docs[i].key.kind != "" && i !in faults)
  {
  }
}
