/** The object store the handlers run against (the bucket behind saveFile, fetchFile,
    listFiles and deleteFiles): a map from key strings to stored objects, with a ghost
    log of every call made to it. */
module BlobStore {
  import opened Basics
  import opened Strings

  /** The body of a stored object, as the handlers hand it to the store. */
  datatype Media =
    | Bytes(data: seq<byte>)   // a raw request body, stored as it is
    | JsonText(doc: Json)      // the text JSON.stringify(doc, null, 4) makes of a value
    | Unserialised(doc: Json)  // a parsed body passed to the store without stringifying

  /** `{ media, contentType, metadata }`; metadata keeps the order of Object.keys. */
  datatype StoredObject = StoredObject(media: Media, contentType: string, metadata: seq<(string, string)>)

  /** One call into the store. */
  datatype Access =
    | Read(key: string)        // fetchFile
    | Write(key: string)       // saveFile
    | Remove(keys: seq<string>) // deleteFiles
    | Scan(prefix: string)     // listFiles

  /** fetchFile's answer: the object, or null for a key that is not stored (a 404). */
  function Lookup(objects: map<string, StoredObject>, key: string): (r: Option<StoredObject>)
    ensures r.Some? <==> key in objects
    ensures r.Some? ==> r.value == objects[key]
  {
    if key in objects then Some(objects[key]) else None
  }

  /** The keys that listFiles(prefix) reports. */
  function KeysUnder(objects: map<string, StoredObject>, prefix: string): (r: set<string>)
    ensures forall k :: k in r <==> k in objects && prefix <= k
  {
    set k | k in objects && prefix <= k
  }

  /** Strictly increasing in the store's key order (so also free of duplicates). */
  predicate Sorted(keys: seq<string>) {
    forall i, j :: 0 <= i < j < |keys| ==> Less(keys[i], keys[j])
  }

  /** A key put into its place in a sorted listing. */
  function Insert(keys: seq<string>, k: string): (r: seq<string>)
    requires Sorted(keys) && k !in keys
    ensures Sorted(r) && |r| == |keys| + 1
    ensures forall x :: x in r <==> x in keys || x == k
    decreases |keys|
  {
    if keys == [] then [k]
    else if Less(k, keys[0]) then
      assert forall j :: 0 < j < |keys| ==> Less(k, keys[j]) by {
        forall j | 0 < j < |keys| ensures Less(k, keys[j]) {
          LessTransitive(k, keys[0], keys[j]);
        }
      }
      [k] + keys
    else
      LessTotal(k, keys[0]);
      var tail := Insert(keys[1..], k);
      assert forall x :: x in tail ==> Less(keys[0], x);
      [keys[0]] + tail
  }

  predicate IsLeast(m: string, s: set<string>) {
    m in s && forall x :: x in s && x != m ==> Less(m, x)
  }

  lemma {:induction false} LeastExists(s: set<string>)
    requires s != {}
    ensures exists m :: IsLeast(m, s)
    decreases |s|
  {
    var y :| y in s;
    if s != {y} {
      LeastExists(s - {y});
      var m :| IsLeast(m, s - {y});
      if Less(y, m) {
        forall x | x in s && x != y ensures Less(y, x) {
          if x != m { LessTransitive(y, m, x); }
        }
        assert IsLeast(y, s);
      } else {
        LessTotal(y, m);
        assert IsLeast(m, s);
      }
    } else {
      assert IsLeast(y, s);
    }
  }

  /** The keys of a set in the store's order: the order in which the store lists them. */
  ghost function SortedKeys(s: set<string>): (r: seq<string>)
    ensures Sorted(r)
    ensures forall x :: x in r <==> x in s
    decreases |s|
  {
    if s == {} then []
    else
      LeastExists(s);
      var m :| IsLeast(m, s);
      var tail := SortedKeys(s - {m});
      assert forall x :: x in tail ==> Less(m, x);
      [m] + tail
  }

  /** A sorted listing is determined by the keys it holds. */
  lemma {:induction false} SortedUnique(a: seq<string>, b: seq<string>)
    requires Sorted(a) && Sorted(b)
    requires forall x :: x in a <==> x in b
    ensures a == b
    decreases |a|
  {
    assert b != [] ==> b[0] in a;
    if a != [] {
      assert a[0] in b;
      assert b[0] in a;
      if a[0] != b[0] {
        var i :| 0 <= i < |b| && b[i] == a[0];
        var j :| 0 <= j < |a| && a[j] == b[0];
        LessTransitive(a[0], a[j], a[0]);
        LessIrreflexive(a[0]);
        assert false;
      }
      assert a == [a[0]] + a[1..] && b == [b[0]] + b[1..];
      forall x ensures x in a[1..] <==> x in b[1..] {
        if x in a[1..] {
          var k :| 0 <= k < |a[1..]| && a[1..][k] == x;
          assert Less(a[0], a[k + 1]);
          LessIrreflexive(x);
          assert x in b && x != b[0];
          assert b == [b[0]] + b[1..];
        }
        if x in b[1..] {
          var k :| 0 <= k < |b[1..]| && b[1..][k] == x;
          assert Less(b[0], b[k + 1]);
          LessIrreflexive(x);
          assert x in a && x != a[0];
          assert a == [a[0]] + a[1..];
        }
      }
      SortedUnique(a[1..], b[1..]);
    }
  }

  /** The sorted listing of a set holds exactly its elements, each once. */
  lemma SortedKeysOf(keys: seq<string>, s: set<string>)
    requires Sorted(keys) && forall x :: x in keys <==> x in s
    ensures keys == SortedKeys(s)
  {
    SortedUnique(keys, SortedKeys(s));
  }

  /** The bucket. */
  class Store {
    var objects: map<string, StoredObject>
    ghost var log: seq<Access>

    constructor ()
      ensures objects == map[] && log == []
    {
      objects := map[];
      log := [];
    }

    /** saveFile: put or overwrite one key. */
    method Save(key: string, obj: StoredObject)
      modifies this
      ensures objects == old(objects)[key := obj]
      ensures log == old(log) + [Write(key)]
    {
      objects := objects[key := obj];
      log := log + [Write(key)];
    }

    /** fetchFile: the object at a key, or None where the store answers 404. */
    method Fetch(key: string) returns (r: Option<StoredObject>)
      modifies this`log
      ensures r == Lookup(objects, key)
      ensures log == old(log) + [Read(key)]
    {
      r := if key in objects then Some(objects[key]) else None;
      log := log + [Read(key)];
    }

    /** deleteFiles: remove every listed key; a key that is not stored is no error. */
    method Delete(keys: seq<string>)
      modifies this
      ensures objects == old(objects) - (set k | k in keys)
      ensures log == old(log) + [Remove(keys)]
    {
      objects := objects - (set k | k in keys);
      log := log + [Remove(keys)];
    }

    /** listFiles: the keys that start with a prefix, in the store's order. */
    method List(prefix: string) returns (keys: seq<string>)
      modifies this`log
      ensures keys == SortedKeys(KeysUnder(objects, prefix))
      ensures log == old(log) + [Scan(prefix)]
    {
      var under := KeysUnder(objects, prefix);
      var rest := under;
      keys := [];
      while rest != {}
        invariant rest <= under
        invariant Sorted(keys)
        invariant forall x :: x in keys <==> x in under && x !in rest
        decreases rest
      {
        var k :| k in rest;
        keys := Insert(keys, k);
        rest := rest - {k};
      }
      SortedKeysOf(keys, under);
      log := log + [Scan(prefix)];
    }
  }
}
