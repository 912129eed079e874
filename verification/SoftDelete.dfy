/**
The S3 backend over a bucket, in both delete modes.  With soft delete a deletion overwrites the object
with a zero-byte tombstone, and every read hides zero-byte objects again.
*/
module SoftDelete {
  import opened MachineTypes
  import opened Wrappers
  import opened Sequences

  /** The objects of the bucket by full key. */
  type Bucket = map<string, Bytes>

  datatype Config = Config(root: string, softDelete: bool)

  datatype RangeError = ZeroLength | Overflow | NotSatisfiable | ShortRead

  function FullKey(cfg: Config, key: string): string {
    if cfg.root == "" then key else cfg.root + "/" + key
  }

  predicate IsMarker(key: string) {
    key != "" && key[|key| - 1] == '/'
  }

  // ---------- operations on a bucket ----------

  function PutBytes(cfg: Config, objects: Bucket, key: string, data: Bytes): Bucket {
    objects[FullKey(cfg, key) := data]
  }

  function Deleted(cfg: Config, objects: Bucket, key: string): Bucket {
    if cfg.softDelete then PutBytes(cfg, objects, key, [])
    else objects - {FullKey(cfg, key)}
  }

  /** The key of a directory marker. */
  function Marker(key: string): string {
    if IsMarker(key) then key else key + "/"
  }

  /** `create_dir` leaves an empty object whose key ends in a slash. */
  function MadeDir(cfg: Config, objects: Bucket, key: string): Bucket {
    PutBytes(cfg, objects, Marker(key), [])
  }

  function Get(cfg: Config, objects: Bucket, key: string): Option<Bytes> {
    var full := FullKey(cfg, key);
    if full !in objects then None
    else if cfg.softDelete && objects[full] == [] then None
    else Some(objects[full])
  }

  predicate Exists(cfg: Config, objects: Bucket, key: string) {
    var full := FullKey(cfg, key);
    full in objects && (cfg.softDelete ==> |objects[full]| > 0)
  }

  function Size(cfg: Config, objects: Bucket, key: string): Option<nat> {
    var full := FullKey(cfg, key);
    if full !in objects then None
    else if cfg.softDelete && |objects[full]| == 0 then None
    else Some(|objects[full]|)
  }

  /** What the server sends for bytes `offset` to `end` inclusive; `None` is status 416. */
  function ServeRange(body: Bytes, offset: nat, end: nat): Option<Bytes>
    requires offset <= end
  {
    if offset >= |body| then None
    else Some(body[offset..if end < |body| then end + 1 else |body|])
  }

  function ReadRange(served: Option<Bytes>, length: nat): Result<Option<Bytes>, RangeError> {
    match served
    case None => Err(NotSatisfiable)
    case Some(bytes) => if |bytes| != length then Err(ShortRead) else Ok(Some(bytes))
  }

  function GetRange(cfg: Config, objects: Bucket, key: string, offset: nat, length: nat)
    : Result<Option<Bytes>, RangeError>
  {
    if length == 0 then Err(ZeroLength)
    else if cfg.softDelete && Size(cfg, objects, key).None? then Ok(None)
    else if offset + length > MAX_U64 then Err(Overflow)
    else
      var full := FullKey(cfg, key);
      if full !in objects then Ok(None)
      else ReadRange(ServeRange(objects[full], offset, offset + length - 1), length)
  }

  // ---------- listing ----------

  datatype Object = Object(key: string, size: nat)

  /** The answer to a list request, before it is cut into pages. */
  ghost predicate Lists(objects: Bucket, prefix: string, listed: seq<Object>) {
    && (forall i, j :: 0 <= i < j < |listed| ==> listed[i].key != listed[j].key)
    && (forall i :: 0 <= i < |listed| ==>
          prefix <= listed[i].key && listed[i].key in objects && listed[i].size == |objects[listed[i].key]|)
    && (forall k :: k in objects && prefix <= k ==> exists i :: 0 <= i < |listed| && listed[i].key == k)
  }

  function Flatten(pages: seq<seq<Object>>): seq<Object> {
    if pages == [] then [] else Flatten(pages[..|pages| - 1]) + pages[|pages| - 1]
  }

  predicate Shown(cfg: Config, obj: Object) {
    !IsMarker(obj.key) && !(cfg.softDelete && obj.size == 0)
  }

  function Strip(cfg: Config, key: string): string {
    var n := if cfg.root == "" then 0 else |cfg.root| + 1;
    if n > 0 && |key| > n then key[n..] else key
  }

  /** What `list` returns for the objects of all pages. */
  function Listing(cfg: Config, listed: seq<Object>): seq<string> {
    if listed == [] then []
    else
      var last := listed[|listed| - 1];
      Listing(cfg, listed[..|listed| - 1]) + if Shown(cfg, last) then [Strip(cfg, last.key)] else []
  }

  lemma {:induction false} ListingConcat(cfg: Config, a: seq<Object>, b: seq<Object>)
    ensures Listing(cfg, a + b) == Listing(cfg, a) + Listing(cfg, b)
  {
    if b == [] {
      assert a + b == a;
    } else {
      var last := |b| - 1;
      assert (a + b)[..|a + b| - 1] == a + b[..last];
      ListingConcat(cfg, a, b[..last]);
    }
  }

  class S3Backend {
    const cfg: Config
    var objects: Bucket

    constructor (root: string, softDelete: bool)
      ensures cfg == Config(root, softDelete) && objects == map[]
    {
      cfg, objects := Config(root, softDelete), map[];
    }

    method Put(key: string, data: Bytes)
      modifies this
      ensures objects == PutBytes(cfg, old(objects), key, data)
    {
      objects := objects[FullKey(cfg, key) := data];
    }

    method Delete(key: string)
      modifies this
      ensures objects == Deleted(cfg, old(objects), key)
    {
      if cfg.softDelete {
        Put(key, []);
        return;
      }
      objects := objects - {FullKey(cfg, key)};
    }

    method CreateDir(key: string)
      modifies this
      ensures objects == MadeDir(cfg, old(objects), key)
    {
      var dirKey := if IsMarker(key) then FullKey(cfg, key) else FullKey(cfg, key + "/");
      objects := objects[dirKey := []];
    }

    /** Page by page until no continuation token is left; how the listing was cut does not matter. */
    method List(pages: seq<seq<Object>>) returns (keys: seq<string>)
      ensures keys == Listing(cfg, Flatten(pages))
    {
      keys := [];
      for p := 0 to |pages|
        invariant keys == Listing(cfg, Flatten(pages[..p]))
      {
        ghost var before := keys;
        assert pages[..p + 1][..p] == pages[..p];
        ListingConcat(cfg, Flatten(pages[..p]), pages[p]);
        for i := 0 to |pages[p]|
          invariant keys == before + Listing(cfg, pages[p][..i])
        {
          var obj := pages[p][i];
          assert pages[p][..i + 1][..i] == pages[p][..i];
          if IsMarker(obj.key) {
            continue;
          }
          if cfg.softDelete && obj.size == 0 {
            continue;
          }
          keys := keys + [Strip(cfg, obj.key)];
        }
        assert pages[p][..|pages[p]|] == pages[p];
      }
      assert pages[..|pages|] == pages;
    }
  }

  // ---------- the reference store ----------

  datatype Op = Put(key: string, data: Bytes) | Delete(key: string) | MakeDir(key: string)

  function ApplyOp(cfg: Config, objects: Bucket, op: Op): Bucket {
    match op
    case Put(key, data) => PutBytes(cfg, objects, key, data)
    case Delete(key) => Deleted(cfg, objects, key)
    case MakeDir(key) => MadeDir(cfg, objects, key)
  }

  /** A write to the reference store.  In soft mode writing nothing is deleting. */
  function Written(cfg: Config, store: Bucket, key: string, data: Bytes): Bucket {
    if cfg.softDelete && data == [] then store - {key} else store[key := data]
  }

  function ApplyRef(cfg: Config, store: Bucket, op: Op): Bucket {
    match op
    case Put(key, data) => Written(cfg, store, key, data)
    case Delete(key) => store - {key}
    case MakeDir(key) => Written(cfg, store, Marker(key), [])
  }

  function RunBucket(cfg: Config, ops: seq<Op>): Bucket {
    if ops == [] then map[] else ApplyOp(cfg, RunBucket(cfg, ops[..|ops| - 1]), ops[|ops| - 1])
  }

  function RunRef(cfg: Config, ops: seq<Op>): Bucket {
    if ops == [] then map[] else ApplyRef(cfg, RunRef(cfg, ops[..|ops| - 1]), ops[|ops| - 1])
  }

  /** The bucket shows exactly the reference store. */
  ghost predicate Shows(cfg: Config, objects: Bucket, store: Bucket) {
    forall key :: Get(cfg, objects, key) == if key in store then Some(store[key]) else None
  }

  lemma FullKeyInjective(cfg: Config, a: string, b: string)
    requires FullKey(cfg, a) == FullKey(cfg, b)
    ensures a == b
  {
    var n := if cfg.root == "" then 0 else |cfg.root| + 1;
    assert FullKey(cfg, a)[n..] == a;
    assert FullKey(cfg, b)[n..] == b;
  }

  /** Every write, deletion and directory marker does to what the bucket shows what it does to a map. */
  lemma OpKeepsShows(cfg: Config, objects: Bucket, store: Bucket, op: Op)
    requires Shows(cfg, objects, store)
    ensures Shows(cfg, ApplyOp(cfg, objects, op), ApplyRef(cfg, store, op))
  {
    var objects', store' := ApplyOp(cfg, objects, op), ApplyRef(cfg, store, op);
    var target := if op.MakeDir? then Marker(op.key) else op.key;
    forall key
      ensures Get(cfg, objects', key) == if key in store' then Some(store'[key]) else None
    {
      if FullKey(cfg, key) == FullKey(cfg, target) {
        FullKeyInjective(cfg, key, target);
      } else {
        assert Get(cfg, objects', key) == Get(cfg, objects, key);
      }
    }
  }

  /** Whatever the operations, the bucket shows what the reference store holds. */
  lemma {:induction false} RunShows(cfg: Config, ops: seq<Op>)
    ensures Shows(cfg, RunBucket(cfg, ops), RunRef(cfg, ops))
    decreases |ops|
  {
    if ops != [] {
      var init := ops[..|ops| - 1];
      RunShows(cfg, init);
      OpKeepsShows(cfg, RunBucket(cfg, init), RunRef(cfg, init), ops[|ops| - 1]);
    }
  }

  // ---------- both modes are one map ----------

  /** A map that knows neither modes nor directory markers. */
  function RunPlain(ops: seq<Op>): Bucket {
    if ops == [] then map[]
    else
      var store := RunPlain(ops[..|ops| - 1]);
      match ops[|ops| - 1]
      case Put(key, data) => store[key := data]
      case Delete(key) => store - {key}
      case MakeDir(_) => store
  }

  /** Nothing empty is written. */
  predicate NothingEmpty(ops: seq<Op>) {
    forall i :: 0 <= i < |ops| && ops[i].Put? ==> ops[i].data != []
  }

  /** Away from directory markers, hard mode is the plain map, and so is soft mode if nothing empty is
      written. */
  lemma ModesAreOneMap(cfg: Config, ops: seq<Op>, key: string)
    requires (cfg.softDelete ==> NothingEmpty(ops)) && !IsMarker(key)
    ensures Get(cfg, RunBucket(cfg, ops), key) == if key in RunPlain(ops) then Some(RunPlain(ops)[key]) else None
  {
    RunShows(cfg, ops);
    RefIsPlain(cfg, ops, key);
  }

  lemma {:induction false} RefIsPlain(cfg: Config, ops: seq<Op>, key: string)
    requires (cfg.softDelete ==> NothingEmpty(ops)) && !IsMarker(key)
    ensures key in RunRef(cfg, ops) <==> key in RunPlain(ops)
    ensures key in RunRef(cfg, ops) ==> RunRef(cfg, ops)[key] == RunPlain(ops)[key]
    decreases |ops|
  {
    if ops != [] {
      var init := ops[..|ops| - 1];
      assert cfg.softDelete ==> NothingEmpty(init);
      RefIsPlain(cfg, init, key);
      assert ops[|ops| - 1].MakeDir? ==> key != Marker(ops[|ops| - 1].key);
    }
  }

  // ---------- every read agrees ----------

  function RefRange(store: Bucket, key: string, offset: nat, length: nat): Result<Option<Bytes>, RangeError> {
    if length == 0 then Err(ZeroLength)
    else if offset + length > MAX_U64 then Err(Overflow)
    else if key !in store then Ok(None)
    else if offset >= |store[key]| then Err(NotSatisfiable)
    else if offset + length > |store[key]| then Err(ShortRead)
    else Ok(Some(store[key][offset..offset + length]))
  }

  /** `get`, `exists` and `size` cannot tell the bucket from a map. */
  lemma PointReadsAgree(cfg: Config, ops: seq<Op>, key: string)
    ensures var objects, store := RunBucket(cfg, ops), RunRef(cfg, ops);
      && Get(cfg, objects, key) == (if key in store then Some(store[key]) else None)
      && (Exists(cfg, objects, key) <==> key in store)
      && Size(cfg, objects, key) == (if key in store then Some(|store[key]|) else None)
  {
    RunShows(cfg, ops);
    var objects, store := RunBucket(cfg, ops), RunRef(cfg, ops);
    assert Get(cfg, objects, key) == if key in store then Some(store[key]) else None;
  }

  /** Range reads agree except in one case: soft mode looks for the object before it looks at the range, so
      a range past the end of u64 on a missing key is "missing" instead of an overflow. */
  lemma RangeReadsAgree(cfg: Config, ops: seq<Op>, key: string, offset: nat, length: nat)
    ensures var objects, store := RunBucket(cfg, ops), RunRef(cfg, ops);
      GetRange(cfg, objects, key, offset, length) == RefRange(store, key, offset, length) <==>
      !(cfg.softDelete && key !in store && length > 0 && offset + length > MAX_U64)
  {
    PointReadsAgree(cfg, ops, key);
    var objects, store := RunBucket(cfg, ops), RunRef(cfg, ops);
  }

  /** An input on which the two modes differ. */
  lemma RangeReadsDiffer()
    ensures GetRange(Config("", true), map[], "k", MAX_U64, 1) == Ok(None)
    ensures GetRange(Config("", false), map[], "k", MAX_U64, 1) == Err(Overflow)
  {
  }

  /** Writing something empty in soft mode is the same as deleting it. */
  lemma EmptyPutIsDelete(cfg: Config, objects: Bucket, key: string, data: Bytes)
    ensures Get(cfg, PutBytes(cfg, objects, key, data), key) == Some(data) <==> !(cfg.softDelete && data == [])
  {
  }

  // ---------- listings agree ----------

  lemma StripFullKey(cfg: Config, prefix: string, key: string)
    requires FullKey(cfg, prefix) <= key && !IsMarker(key)
    ensures key == FullKey(cfg, Strip(cfg, key))
    ensures prefix <= Strip(cfg, key)
  {
    if cfg.root != "" {
      var n := |cfg.root| + 1;
      var full := cfg.root + "/" + prefix;
      assert key[..|full|] == full;
      assert key[..n] == full[..n] == cfg.root + "/";
      assert key[n - 1] == '/';
      assert key == key[..n] + key[n..];
      assert full[n..] == prefix;
      forall i | 0 <= i < |prefix|
        ensures key[n..][i] == prefix[i]
      {
        assert key[n + i] == full[n + i];
      }
    }
  }

  lemma {:induction false} ListingMembers(cfg: Config, listed: seq<Object>, key: string)
    ensures key in Listing(cfg, listed) <==>
      exists i :: 0 <= i < |listed| && Shown(cfg, listed[i]) && Strip(cfg, listed[i].key) == key
    decreases |listed|
  {
    if listed != [] {
      var init, last := listed[..|listed| - 1], |listed| - 1;
      ListingMembers(cfg, init, key);
      if key in Listing(cfg, init) {
        var i :| 0 <= i < |init| && Shown(cfg, init[i]) && Strip(cfg, init[i].key) == key;
        assert listed[i] == init[i];
      }
      if i :| 0 <= i < |listed| && Shown(cfg, listed[i]) && Strip(cfg, listed[i].key) == key {
        assert i < last ==> init[i] == listed[i];
      }
    }
  }

  lemma {:induction false} ListingDistinct(cfg: Config, prefix: string, listed: seq<Object>)
    requires forall i, j :: 0 <= i < j < |listed| ==> listed[i].key != listed[j].key
    requires forall i :: 0 <= i < |listed| ==> FullKey(cfg, prefix) <= listed[i].key
    ensures Distinct(Listing(cfg, listed))
    decreases |listed|
  {
    if listed != [] {
      var init, last := listed[..|listed| - 1], listed[|listed| - 1];
      ListingDistinct(cfg, prefix, init);
      if Shown(cfg, last) {
        ListingMembers(cfg, init, Strip(cfg, last.key));
        StripFullKey(cfg, prefix, last.key);
        forall i | 0 <= i < |init| && Shown(cfg, init[i])
          ensures Strip(cfg, init[i].key) != Strip(cfg, last.key)
        {
          StripFullKey(cfg, prefix, init[i].key);
          assert listed[i] == init[i];
        }
        assert Strip(cfg, last.key) !in Listing(cfg, init);
      }
    }
  }

  /** However the server cuts its answer into pages, `list` returns, each once, the keys the map has
      under the prefix, except those whose full key ends in a slash: directory markers, and the empty key below
      a root. */
  lemma ListingAgrees(cfg: Config, ops: seq<Op>, prefix: string, pages: seq<seq<Object>>)
    requires Lists(RunBucket(cfg, ops), FullKey(cfg, prefix), Flatten(pages))
    ensures Distinct(Listing(cfg, Flatten(pages)))
    ensures forall key :: key in Listing(cfg, Flatten(pages)) <==>
      key in RunRef(cfg, ops) && prefix <= key && !IsMarker(FullKey(cfg, key))
  {
    var objects, store, listed := RunBucket(cfg, ops), RunRef(cfg, ops), Flatten(pages);
    RunShows(cfg, ops);
    ListingDistinct(cfg, prefix, listed);
    forall key
      ensures key in Listing(cfg, listed) <==> key in store && prefix <= key && !IsMarker(FullKey(cfg, key))
    {
      ListingHasExactly(cfg, objects, store, prefix, listed, key);
    }
  }

  /** A stored object that no listing shows: whatever is put under the empty key below a root. */
  lemma EmptyKeyIsHidden(cfg: Config, data: Bytes)
    requires cfg.root != "" && data != []
    ensures var ops, obj := [Put("", data)], Object(FullKey(cfg, ""), |data|);
      && RunRef(cfg, ops) == map["" := data] && Get(cfg, RunBucket(cfg, ops), "") == Some(data)
      && Lists(RunBucket(cfg, ops), FullKey(cfg, ""), [obj])
      && Listing(cfg, [obj]) == []
  {
    var op, full := Put("", data), FullKey(cfg, "");
    assert [op][..0] == [];
    assert RunRef(cfg, []) == map[];
    assert RunBucket(cfg, [op]) == map[full := data];
    var obj := Object(full, |data|);
    assert IsMarker(full);
    assert [obj][..0] == [];
    assert [obj][0].key == full;
  }

  lemma ListingHasExactly(
    cfg: Config, objects: Bucket, store: Bucket, prefix: string, listed: seq<Object>, key: string)
    requires Shows(cfg, objects, store) && Lists(objects, FullKey(cfg, prefix), listed)
    ensures key in Listing(cfg, listed) <==> key in store && prefix <= key && !IsMarker(FullKey(cfg, key))
  {
    ListingMembers(cfg, listed, key);
    if key in Listing(cfg, listed) {
      var i :| 0 <= i < |listed| && Shown(cfg, listed[i]) && Strip(cfg, listed[i].key) == key;
      ListedIsStored(cfg, objects, store, prefix, listed[i]);
    }
    if key in store && prefix <= key && !IsMarker(FullKey(cfg, key)) {
      StoredIsListed(cfg, objects, store, prefix, listed, key);
    }
  }

  lemma ListedIsStored(cfg: Config, objects: Bucket, store: Bucket, prefix: string, obj: Object)
    requires Shows(cfg, objects, store) && FullKey(cfg, prefix) <= obj.key
    requires obj.key in objects && obj.size == |objects[obj.key]| && Shown(cfg, obj)
    ensures Strip(cfg, obj.key) in store && prefix <= Strip(cfg, obj.key)
    ensures !IsMarker(FullKey(cfg, Strip(cfg, obj.key)))
  {
    StripFullKey(cfg, prefix, obj.key);
    var key := Strip(cfg, obj.key);
    assert Get(cfg, objects, key) == if key in store then Some(store[key]) else None;
  }

  lemma StoredIsListed(
    cfg: Config, objects: Bucket, store: Bucket, prefix: string, listed: seq<Object>, key: string)
    requires Shows(cfg, objects, store) && Lists(objects, FullKey(cfg, prefix), listed)
    requires key in store && prefix <= key && !IsMarker(FullKey(cfg, key))
    ensures exists i :: 0 <= i < |listed| && Shown(cfg, listed[i]) && Strip(cfg, listed[i].key) == key
  {
    var full := FullKey(cfg, key);
    assert Get(cfg, objects, key) == Some(store[key]);
    assert FullKey(cfg, prefix) <= full;
    var i :| 0 <= i < |listed| && listed[i].key == full;
    assert Shown(cfg, listed[i]);
    StripFullKey(cfg, prefix, full);
    FullKeyInjective(cfg, Strip(cfg, full), key);
  }
}
