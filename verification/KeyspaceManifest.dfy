/** The confidential digest of a Redis keyspace, from a cursor scan and keyed hashes. */
module KeyspaceManifest {
  import opened Patterns
  import opened DecimalText
  import opened Ordering

  const MAX_KEYS: nat := 1_000_000

  /** One value as the read commands report it; an expiry of -1 is persistent. */
  datatype Entry = Entry(kind: Bytes, dump: Bytes, expiry: int, text: Option<Bytes>, pttl: int)

  type Keyspace = map<Bytes, Entry>

  datatype Policy = Steady | Migration

  datatype Projection = Full | NonJob

  /** The two key names that manifests leave out. */
  datatype Names = Names(lock: Bytes, jobs: Bytes)

  predicate Ignored(names: Names, p: Projection, key: Bytes) {
    key == names.lock || (p == NonJob && key == names.jobs)
  }

  // ---- framing of the hashed parts --------------------------------------------------------

  function Big(n: nat, k: nat): (b: Bytes)
    ensures |b| == k
  {
    if k == 0 then [] else Big(n / 256, k - 1) + [n % 256]
  }

  function Pow256(k: nat): nat {
    if k == 0 then 1 else 256 * Pow256(k - 1)
  }

  lemma {:induction false} BigInjective(m: nat, n: nat, k: nat)
    requires m < Pow256(k) && n < Pow256(k) && Big(m, k) == Big(n, k)
    ensures m == n
  {
    if k == 0 {
    } else {
      assert Big(m, k)[k - 1] == m % 256 && Big(n, k)[k - 1] == n % 256;
      assert Big(m, k)[..k - 1] == Big(m / 256, k - 1) && Big(n, k)[..k - 1] == Big(n / 256, k - 1);
      BigInjective(m / 256, n / 256, k - 1);
    }
  }

  /** Each part after its eight-byte length: the bytes that the keyed hash reads. */
  function Frame(parts: seq<Bytes>): Bytes {
    if parts == [] then [] else Big(|parts[0]|, 8) + parts[0] + Frame(parts[1..])
  }

  predicate Sized(parts: seq<Bytes>) {
    forall i :: 0 <= i < |parts| ==> |parts[i]| < Pow256(8)
  }

  /** Different part lists never hash the same bytes. */
  lemma {:induction false} FrameInjective(a: seq<Bytes>, b: seq<Bytes>)
    requires Sized(a) && Sized(b) && Frame(a) == Frame(b)
    ensures a == b
    decreases |a|
  {
    assert a != [] ==> |Frame(a)| >= 8;
    assert b != [] ==> |Frame(b)| >= 8;
    if a == [] || b == [] {
    } else {
      var f := Frame(a);
      assert f[..8] == Big(|a[0]|, 8) && f[..8] == Big(|b[0]|, 8);
      BigInjective(|a[0]|, |b[0]|, 8);
      var n := |a[0]|;
      assert f[8..8 + n] == a[0] && f[8..8 + n] == b[0];
      assert f[8 + n..] == Frame(a[1..]) && f[8 + n..] == Frame(b[1..]);
      FrameInjective(a[1..], b[1..]);
      assert a == [a[0]] + a[1..] && b == [b[0]] + b[1..];
    }
  }

  /** The keyed hash, with its salt fixed. */
  type Mac = Bytes -> Bytes

  /** No two messages have the same hash: the hash determines the message. */
  ghost predicate CollisionFree(mac: Mac) {
    exists message: Bytes -> Bytes :: Determines(mac, message)
  }

  ghost predicate Determines(mac: Mac, message: Bytes -> Bytes) {
    forall b :: message(mac(b)) == b
  }

  lemma SameParts(mac: Mac, a: seq<Bytes>, b: seq<Bytes>)
    requires CollisionFree(mac) && Sized(a) && Sized(b) && mac(Frame(a)) == mac(Frame(b))
    ensures a == b
  {
    var message: Bytes -> Bytes :| Determines(mac, message);
    assert message(mac(Frame(a))) == Frame(a) && message(mac(Frame(b))) == Frame(b);
    FrameInjective(a, b);
  }

  // ---- records ---------------------------------------------------------------------------------

  const VALUE_LABEL: Bytes := [118, 97, 108, 117, 101]
  const KEY_LABEL: Bytes := [107, 101, 121]
  const NONE_KIND: Bytes := [110, 111, 110, 101]
  const STRING_KIND: Bytes := [115, 116, 114, 105, 110, 103]

  datatype Ttl = Persistent | ExpiresAt(ms: nat)

  function TtlOf(expiry: int): Ttl
    requires expiry >= -1
  {
    if expiry == -1 then Persistent else ExpiresAt(expiry)
  }

  /** The two keyed hashes of a record, by what they cover. */
  datatype Hasher = Hasher(key: Bytes -> Bytes, value: (Bytes, Bytes, Bytes) -> Bytes)

  /** The hashes as the source frames them. */
  function Framed(mac: Mac): Hasher {
    Hasher(key => mac(Frame([KEY_LABEL, key])), (key, kind, dump) => mac(Frame([VALUE_LABEL, key, kind, dump])))
  }

  predicate Short(b: Bytes) {
    |b| < Pow256(8)
  }

  /** Equal hashes come from equal keys, and from equal keys, types and dumps. */
  ghost predicate Faithful(h: Hasher) {
    && (forall k, l :: Short(k) && Short(l) && h.key(k) == h.key(l) ==> k == l)
    && (forall k, kind, dump, l, kind', dump' ::
          (Short(k) && Short(kind) && Short(dump) && Short(l) && Short(kind') && Short(dump')
           && h.value(k, kind, dump) == h.value(l, kind', dump')) ==> k == l && kind == kind' && dump == dump')
  }

  lemma SameKeyHash(mac: Mac, k: Bytes, l: Bytes)
    requires CollisionFree(mac) && Short(k) && Short(l)
    requires Framed(mac).key(k) == Framed(mac).key(l)
    ensures k == l
  {
    var a, b := [KEY_LABEL, k], [KEY_LABEL, l];
    SameParts(mac, a, b);
    assert a[1] == b[1];
  }

  lemma SameValueHash(mac: Mac, k: Bytes, kind: Bytes, dump: Bytes, l: Bytes, kind': Bytes, dump': Bytes)
    requires CollisionFree(mac)
    requires Short(k) && Short(kind) && Short(dump) && Short(l) && Short(kind') && Short(dump')
    requires Framed(mac).value(k, kind, dump) == Framed(mac).value(l, kind', dump')
    ensures k == l && kind == kind' && dump == dump'
  {
    var a, b := [VALUE_LABEL, k, kind, dump], [VALUE_LABEL, l, kind', dump'];
    SameParts(mac, a, b);
    assert a[1] == b[1] && a[2] == b[2] && a[3] == b[3];
  }

  /** The length-prefixed framing makes a collision-free keyed hash faithful to its parts. */
  lemma FramedIsFaithful(mac: Mac)
    requires CollisionFree(mac)
    ensures Faithful(Framed(mac))
  {
    var h := Framed(mac);
    forall k, l | Short(k) && Short(l) && h.key(k) == h.key(l)
      ensures k == l
    {
      SameKeyHash(mac, k, l);
    }
    forall k, kind, dump, l, kind', dump' |
      Short(k) && Short(kind) && Short(dump) && Short(l) && Short(kind') && Short(dump')
      && h.value(k, kind, dump) == h.value(l, kind', dump')
      ensures k == l && kind == kind' && dump == dump'
    {
      SameValueHash(mac, k, kind, dump, l, kind', dump');
    }
  }

  datatype Record = Record(dumpMac: Bytes, keyMac: Bytes, ttl: Ttl, kind: Bytes)

  /** Usable in a manifest: a known type, and an expiry that was not lost. */
  predicate Readable(e: Entry) {
    e.kind != [] && e.kind != NONE_KIND && (forall i :: 0 <= i < |e.kind| ==> e.kind[i] < 128) && e.expiry >= -1
  }

  function RecordOf(h: Hasher, key: Bytes, e: Entry): Record
    requires Readable(e)
  {
    Record(h.value(key, e.kind, e.dump), h.key(key), TtlOf(e.expiry), e.kind)
  }

  function KeyMac(r: Record): Key {
    r.keyMac
  }

  function AsKey(b: Bytes): Key {
    b
  }

  /** What a manifest shows of a keyspace: type, dump and expiry of each key it covers. */
  function View(names: Names, p: Projection, ks: Keyspace): map<Bytes, (Bytes, Bytes, int)> {
    map k | k in ks && !Ignored(names, p, k) :: (ks[k].kind, ks[k].dump, ks[k].expiry)
  }

  predicate AllReadable(names: Names, p: Projection, ks: Keyspace) {
    forall k :: k in ks && !Ignored(names, p, k) ==> Readable(ks[k])
  }

  /** Every hashed part has a length that eight bytes can hold. */
  predicate KeysSized(ks: Keyspace) {
    forall k :: k in ks ==> Short(k) && Short(ks[k].kind) && Short(ks[k].dump)
  }

  function Records(h: Hasher, names: Names, p: Projection, ks: Keyspace): set<Record>
    requires AllReadable(names, p, ks)
  {
    set k | k in ks && !Ignored(names, p, k) :: RecordOf(h, k, ks[k])
  }

  /** The covered keys in their order. */
  ghost predicate KeyOrder(names: Names, p: Projection, ks: Keyspace, keys: seq<Bytes>) {
    SortedBy(AsKey, keys) && forall k :: k in keys <==> k in View(names, p, ks)
  }

  /** The records of these keys, in the order of the keys. */
  function RecordsOf(h: Hasher, ks: Keyspace, keys: seq<Bytes>): (r: seq<Record>)
    requires forall k :: k in keys ==> k in ks && Readable(ks[k])
    ensures |r| == |keys|
    ensures forall i :: 0 <= i < |keys| ==> r[i] == RecordOf(h, keys[i], ks[keys[i]])
  {
    seq(|keys|, i requires 0 <= i < |keys| => RecordOf(h, keys[i], ks[keys[i]]))
  }

  /** The canonical document: the records in the order of their key hashes, and their number. */
  datatype Canonical = Canonical(projection: Projection, records: seq<Record>, keyCount: nat)

  /** Keys in order, their records sorted stably by key hash: colliding hashes change nothing. */
  ghost predicate IsManifest(h: Hasher, names: Names, p: Projection, ks: Keyspace, c: Canonical) {
    && AllReadable(names, p, ks)
    && c.projection == p && c.keyCount == |c.records|
    && exists keys :: KeyOrder(names, p, ks, keys) && Lists(h, ks, keys, c.records)
  }

  /** The records are those of the keys, sorted. */
  predicate Lists(h: Hasher, ks: Keyspace, keys: seq<Bytes>, records: seq<Record>) {
    && (forall k :: k in keys ==> k in ks && Readable(ks[k]))
    && records == StableSorted(KeyMac, RecordsOf(h, ks, keys))
  }

  // ---- scanning ----------------------------------------------------------------------------------

  /** One reply of the scan; a zero cursor ends it. */
  datatype Batch = Batch(cursor: int, keys: seq<Bytes>)

  function Scanned(script: seq<Batch>): Option<set<Bytes>> {
    if script == [] then None
    else
      var keys := set k | k in script[0].keys;
      if script[0].cursor == 0 then Some(keys)
      else match Scanned(script[1..])
           case None => None
           case Some(rest) => Some(keys + rest)
  }

  /** A scan ends at the first zero cursor, and returns what all batches until then held. */
  lemma {:induction false} ScannedUntilZero(script: seq<Batch>, n: nat)
    requires n < |script| && script[n].cursor == 0 && forall i :: 0 <= i < n ==> script[i].cursor != 0
    ensures Scanned(script).Some?
    ensures forall k :: k in Scanned(script).value <==> exists i :: 0 <= i <= n && k in script[i].keys
    decreases n
  {
    if n == 0 {
    } else {
      var rest := script[1..];
      ScannedUntilZero(rest, n - 1);
      forall k
        ensures k in Scanned(script).value <==> exists i :: 0 <= i <= n && k in script[i].keys
      {
        if i :| 0 <= i <= n && k in script[i].keys {
          if i > 0 {
            assert k in rest[i - 1].keys;
          }
        }
        if i :| 0 <= i <= n - 1 && k in rest[i].keys {
          assert k in script[i + 1].keys;
        }
      }
    }
  }

  lemma {:induction false} ScannedNeverZero(script: seq<Batch>)
    requires forall i :: 0 <= i < |script| ==> script[i].cursor != 0
    ensures Scanned(script) == None
  {
    if script == [] {
    } else {
      ScannedNeverZero(script[1..]);
    }
  }

  /** A finished scan of an unchanging keyspace: every key at least once, in any order. */
  predicate ScanOf(ks: Keyspace, script: seq<Batch>) {
    Scanned(script) == Some(ks.Keys)
  }

  function Union(a: set<Bytes>, b: Option<set<Bytes>>): Option<set<Bytes>> {
    match b
    case None => None
    case Some(s) => Some(a + s)
  }

  lemma UnionNothing(b: Option<set<Bytes>>)
    ensures Union({}, b) == b
  {
    if b.Some? {
      assert {} + b.value == b.value;
    }
  }

  /** What one more batch adds to the keys so far. */
  lemma ScanStep(script: seq<Batch>, n: nat, keys: set<Bytes>)
    requires n < |script|
    ensures var grown := keys + (set k | k in script[n].keys);
            Union(keys, Scanned(script[n..])) ==
            if script[n].cursor == 0 then Some(grown) else Union(grown, Scanned(script[n + 1..]))
  {
    var batch := set k | k in script[n].keys;
    assert script[n..][0] == script[n] && script[n..][1..] == script[n + 1..];
    if script[n].cursor != 0 && Scanned(script[n + 1..]).Some? {
      var rest := Scanned(script[n + 1..]).value;
      assert keys + (batch + rest) == keys + batch + rest;
    }
  }

  /** Collects the keys of all batches until the cursor returns to zero. */
  method ScanKeys(script: seq<Batch>) returns (r: Option<set<Bytes>>)
    ensures r.Some? ==> r == Scanned(script) && |r.value| <= MAX_KEYS
    ensures Scanned(script).Some? && |Scanned(script).value| <= MAX_KEYS ==> r.Some?
  {
    var keys: set<Bytes> := {};
    var n := 0;
    assert script[0..] == script;
    UnionNothing(Scanned(script));
    while n < |script|
      invariant 0 <= n <= |script|
      invariant Scanned(script) == Union(keys, Scanned(script[n..]))
    {
      ScanStep(script, n, keys);
      keys := keys + set k | k in script[n].keys;
      if |keys| > MAX_KEYS {
        if Scanned(script).Some? {
          SubsetIsSmaller(keys, Scanned(script).value);
        }
        return None;
      }
      if script[n].cursor == 0 {
        return Some(keys);
      }
      n := n + 1;
    }
    return None;
  }

  lemma {:induction false} SubsetIsSmaller(a: set<Bytes>, b: set<Bytes>)
    requires a <= b
    ensures |a| <= |b|
  {
    if a == {} {
    } else {
      var x :| x in a;
      SubsetIsSmaller(a - {x}, b - {x});
      assert |a| == |a - {x}| + 1 && |b| == |b - {x}| + 1;
    }
  }

  // ---- one pass --------------------------------------------------------------------------------

  predicate LockValid(names: Names, policy: Policy, ks: Keyspace, token: Option<Bytes>) {
    if names.lock !in ks then policy == Steady
    else
      var e := ks[names.lock];
      policy == Migration && e.kind == STRING_KIND && token.Some? && e.text == token && e.pttl > 0
  }

  /** The covered keys of a list, in its order. */
  function Kept(names: Names, p: Projection, keys: seq<Bytes>): (r: seq<Bytes>)
    ensures forall k :: k in r <==> k in keys && !Ignored(names, p, k)
  {
    if keys == [] then []
    else
      var n := |keys| - 1;
      assert keys == keys[..n] + [keys[n]];
      Kept(names, p, keys[..n]) + (if Ignored(names, p, keys[n]) then [] else [keys[n]])
  }

  lemma {:induction false} KeptIsSorted(names: Names, p: Projection, keys: seq<Bytes>)
    requires SortedBy(AsKey, keys)
    ensures SortedBy(AsKey, Kept(names, p, keys))
    decreases |keys|
  {
    if keys == [] {
    } else {
      var n := |keys| - 1;
      var before := Kept(names, p, keys[..n]);
      KeptIsSorted(names, p, keys[..n]);
      forall i | 0 <= i < |before|
        ensures Less(AsKey(before[i]), AsKey(keys[n]))
      {
        assert before[i] in keys[..n];
      }
      SortedAppend(AsKey, before, keys[n]);
    }
  }

  lemma OneMoreKept(h: Hasher, names: Names, p: Projection, ks: Keyspace, keys: seq<Bytes>, n: nat)
    requires n < |keys| && forall k :: k in keys ==> k in ks
    requires forall k :: k in Kept(names, p, keys[..n]) ==> Readable(ks[k])
    requires Ignored(names, p, keys[n]) || Readable(ks[keys[n]])
    ensures forall k :: k in Kept(names, p, keys[..n + 1]) ==> Readable(ks[k])
    ensures RecordsOf(h, ks, Kept(names, p, keys[..n + 1])) ==
            RecordsOf(h, ks, Kept(names, p, keys[..n]))
            + (if Ignored(names, p, keys[n]) then [] else [RecordOf(h, keys[n], ks[keys[n]])])
  {
    assert keys[..n + 1][..n] == keys[..n];
  }

  /** The records of the covered keys, in the order of the keys. */
  method ReadRecords(h: Hasher, names: Names, p: Projection, ks: Keyspace, keys: seq<Bytes>)
    returns (r: Option<seq<Record>>)
    requires forall k :: k in keys <==> k in ks
    ensures r.Some? <==> AllReadable(names, p, ks)
    ensures r.Some? ==> r.value == RecordsOf(h, ks, Kept(names, p, keys))
  {
    var records: seq<Record> := [];
    for n := 0 to |keys|
      invariant forall k :: k in Kept(names, p, keys[..n]) ==> k in ks && Readable(ks[k])
      invariant records == RecordsOf(h, ks, Kept(names, p, keys[..n]))
    {
      if !Ignored(names, p, keys[n]) && !Readable(ks[keys[n]]) {
        return None;
      }
      OneMoreKept(h, names, p, ks, keys, n);
      if !Ignored(names, p, keys[n]) {
        records := records + [RecordOf(h, keys[n], ks[keys[n]])];
      }
    }
    assert keys[..|keys|] == keys;
    return Some(records);
  }

  /** A capture succeeds: the lock is as the policy demands and every covered value is usable. */
  predicate Capturable(names: Names, policy: Policy, p: Projection, ks: Keyspace, token: Option<Bytes>) {
    LockValid(names, policy, ks, token) && |ks| <= MAX_KEYS && AllReadable(names, p, ks)
  }

  lemma ManifestFromRecords(h: Hasher, names: Names, p: Projection, ks: Keyspace, keys: seq<Bytes>)
    requires AllReadable(names, p, ks) && SortedBy(AsKey, keys) && forall k :: k in keys <==> k in ks
    ensures var sorted := StableSorted(KeyMac, RecordsOf(h, ks, Kept(names, p, keys)));
            IsManifest(h, names, p, ks, Canonical(p, sorted, |sorted|))
  {
    var kept := Kept(names, p, keys);
    KeptIsSorted(names, p, keys);
    assert KeyOrder(names, p, ks, kept);
    assert Lists(h, ks, kept, StableSorted(KeyMac, RecordsOf(h, ks, kept)));
  }

  /** Every covered key has a named ASCII type and an expiry that was not lost. */
  predicate Usable(names: Names, p: Projection, ks: Keyspace) {
    forall k :: k in ks && k != names.lock && (k != names.jobs || p == Full) ==>
      && ks[k].kind != [] && ks[k].kind != [110, 111, 110, 101]
      && (forall i :: 0 <= i < |ks[k].kind| ==> ks[k].kind[i] < 128)
      && ks[k].expiry >= -1
  }

  /**
   When a capture succeeds.  In steady operation the migration lock is absent; during a
   migration it is a string with exactly the expected token and time left.
   */
  lemma CaptureConditions(names: Names, p: Projection, ks: Keyspace, token: Option<Bytes>)
    ensures Capturable(names, Steady, p, ks, token) <==>
            names.lock !in ks && |ks| <= 1_000_000 && Usable(names, p, ks)
    ensures Capturable(names, Migration, p, ks, token) <==>
            && names.lock in ks && token.Some?
            && ks[names.lock].kind == [115, 116, 114, 105, 110, 103]
            && ks[names.lock].text == Some(token.value) && ks[names.lock].pttl > 0
            && |ks| <= 1_000_000 && Usable(names, p, ks)
  {
  }

  /** One capture of the keyspace. */
  method Collect(h: Hasher, names: Names, policy: Policy, p: Projection, ks: Keyspace, script: seq<Batch>,
                 token: Option<Bytes>)
    returns (r: Option<Canonical>)
    requires ScanOf(ks, script)
    ensures r.Some? <==> Capturable(names, policy, p, ks, token)
    ensures r.Some? ==> IsManifest(h, names, p, ks, r.value)
  {
    if !LockValid(names, policy, ks, token) {
      return None;
    }
    var scanned := ScanKeys(script);
    if scanned.None? {
      return None;
    }
    var keys := Sort(AsKey, scanned.value);
    var records := ReadRecords(h, names, p, ks, keys);
    if records.None? {
      return None;
    }
    ManifestFromRecords(h, names, p, ks, keys);
    var sorted := StableSorted(KeyMac, records.value);
    return Some(Canonical(p, sorted, |sorted|));
  }

  /**
   Two captures that must agree.  On an unchanging keyspace the digest is that of its one
   manifest, whatever the two scans returned and even if key hashes collide.
   */
  method LogicalManifest(h: Hasher, seal: Canonical -> Bytes, names: Names, policy: Policy, p: Projection,
                         first: Keyspace, firstScan: seq<Batch>, second: Keyspace, secondScan: seq<Batch>,
                         token: Option<Bytes>)
    returns (digest: Option<Bytes>)
    requires ScanOf(first, firstScan) && ScanOf(second, secondScan)
    ensures digest.Some? ==> exists c :: IsManifest(h, names, p, first, c)
    ensures digest.Some? ==> forall c :: IsManifest(h, names, p, first, c) ==> digest.value == seal(c)
    ensures first == second ==> (digest.Some? <==> Capturable(names, policy, p, first, token))
    ensures Faithful(h) && SealInjective(seal) && KeysSized(first) && KeysSized(second) ==>
              (digest.Some? <==>
                 && Capturable(names, policy, p, first, token) && Capturable(names, policy, p, second, token)
                 && View(names, p, first) == View(names, p, second))
  {
    var a := Collect(h, names, policy, p, first, firstScan, token);
    var b := Collect(h, names, policy, p, second, secondScan, token);
    if a.None? || b.None? {
      return None;
    }
    forall c | IsManifest(h, names, p, first, c)
      ensures c == a.value
    {
      ManifestUnique(h, names, p, first, c, a.value);
    }
    if Faithful(h) && KeysSized(first) && KeysSized(second) {
      ManifestIffView(h, names, p, first, second, a.value, b.value);
    }
    return if seal(a.value) == seal(b.value) then Some(seal(a.value)) else None;
  }

  ghost predicate SealInjective(seal: Canonical -> Bytes) {
    forall c, d :: seal(c) == seal(d) ==> c == d
  }

  // ---- what a digest means -----------------------------------------------------------------------

  /** A keyspace has one manifest, whatever the scan order, batching and repetition were. */
  lemma ManifestUnique(h: Hasher, names: Names, p: Projection, ks: Keyspace, c: Canonical, d: Canonical)
    requires IsManifest(h, names, p, ks, c) && IsManifest(h, names, p, ks, d)
    ensures c == d
  {
    var a :| KeyOrder(names, p, ks, a) && Lists(h, ks, a, c.records);
    var b :| KeyOrder(names, p, ks, b) && Lists(h, ks, b, d.records);
    SortedUnique(AsKey, a, b);
  }

  /** The documented order: key hashes rise, and records of one key hash are in key order. */
  lemma ManifestOrder(h: Hasher, names: Names, p: Projection, ks: Keyspace, c: Canonical, keys: seq<Bytes>, mac: Key)
    requires IsManifest(h, names, p, ks, c) && KeyOrder(names, p, ks, keys)
    ensures c.projection == p && c.keyCount == |c.records| == |keys|
    ensures WeaklySortedBy(KeyMac, c.records)
    ensures WithKey(KeyMac, c.records, mac) == WithKey(KeyMac, RecordsOf(h, ks, keys), mac)
    ensures forall r :: r in c.records <==> r in Records(h, names, p, ks)
  {
    var a :| KeyOrder(names, p, ks, a) && Lists(h, ks, a, c.records);
    SortedUnique(AsKey, a, keys);
    StableSortedIsSorted(KeyMac, RecordsOf(h, ks, keys));
    StableSortedIsStable(KeyMac, RecordsOf(h, ks, keys), mac);
    ManifestMembers(h, names, p, ks, c.records, keys);
  }

  lemma RecordOfKey(h: Hasher, names: Names, p: Projection, ks: Keyspace, keys: seq<Bytes>, r: Record)
    requires AllReadable(names, p, ks) && KeyOrder(names, p, ks, keys)
    ensures r in RecordsOf(h, ks, keys) <==> r in Records(h, names, p, ks)
  {
    var records := RecordsOf(h, ks, keys);
    if r in Records(h, names, p, ks) {
      var k :| k in ks && !Ignored(names, p, k) && r == RecordOf(h, k, ks[k]);
      assert k in View(names, p, ks);
      var i :| 0 <= i < |keys| && keys[i] == k;
      assert records[i] == r;
    }
    if r in records {
      var i :| 0 <= i < |keys| && records[i] == r;
      assert keys[i] in View(names, p, ks);
    }
  }

  lemma ManifestMembers(h: Hasher, names: Names, p: Projection, ks: Keyspace, records: seq<Record>, keys: seq<Bytes>)
    requires AllReadable(names, p, ks) && KeyOrder(names, p, ks, keys) && Lists(h, ks, keys, records)
    ensures forall r :: r in records <==> r in Records(h, names, p, ks)
  {
    forall r
      ensures r in records <==> r in Records(h, names, p, ks)
    {
      StableSortedMembers(KeyMac, RecordsOf(h, ks, keys), r);
      RecordOfKey(h, names, p, ks, keys, r);
    }
  }

  lemma RecordShows(h: Hasher, k: Bytes, e: Entry, l: Bytes, f: Entry)
    requires Faithful(h) && Readable(e) && Readable(f)
    requires Short(k) && Short(e.kind) && Short(e.dump) && Short(l) && Short(f.kind) && Short(f.dump)
    requires RecordOf(h, k, e) == RecordOf(h, l, f)
    ensures k == l && e.kind == f.kind && e.dump == f.dump && e.expiry == f.expiry
  {
    assert h.value(k, e.kind, e.dump) == h.value(l, f.kind, f.dump);
  }

  /** What one keyspace shows, the other shows too. */
  lemma ViewIncluded(h: Hasher, names: Names, p: Projection, a: Keyspace, b: Keyspace, k: Bytes)
    requires Faithful(h) && KeysSized(a) && KeysSized(b)
    requires AllReadable(names, p, a) && AllReadable(names, p, b)
    requires Records(h, names, p, a) <= Records(h, names, p, b)
    requires k in View(names, p, a)
    ensures k in View(names, p, b) && View(names, p, b)[k] == View(names, p, a)[k]
  {
    var r := RecordOf(h, k, a[k]);
    assert r in Records(h, names, p, a);
    var l :| l in b && !Ignored(names, p, l) && r == RecordOf(h, l, b[l]);
    RecordShows(h, k, a[k], l, b[l]);
  }

  lemma SameViewSameRecords(h: Hasher, names: Names, p: Projection, a: Keyspace, b: Keyspace, keys: seq<Bytes>)
    requires AllReadable(names, p, a) && AllReadable(names, p, b)
    requires View(names, p, a) == View(names, p, b) && forall k :: k in keys ==> k in View(names, p, a)
    ensures (forall k :: k in keys ==> k in a && Readable(a[k])) && (forall k :: k in keys ==> k in b && Readable(b[k]))
    ensures RecordsOf(h, a, keys) == RecordsOf(h, b, keys)
  {
    forall i | 0 <= i < |keys|
      ensures RecordOf(h, keys[i], a[keys[i]]) == RecordOf(h, keys[i], b[keys[i]])
    {
      assert keys[i] in View(names, p, a) && keys[i] in View(names, p, b);
      assert View(names, p, a)[keys[i]] == View(names, p, b)[keys[i]];
    }
  }

  lemma SameViewSameManifest(
      h: Hasher, names: Names, p: Projection, a: Keyspace, b: Keyspace, c: Canonical, d: Canonical)
    requires IsManifest(h, names, p, a, c) && IsManifest(h, names, p, b, d)
    requires View(names, p, a) == View(names, p, b)
    ensures c == d
  {
    var s :| KeyOrder(names, p, a, s) && Lists(h, a, s, c.records);
    var t :| KeyOrder(names, p, b, t) && Lists(h, b, t, d.records);
    SortedUnique(AsKey, s, t);
    SameViewSameRecords(h, names, p, a, b, s);
  }

  lemma SameManifestSameView(h: Hasher, names: Names, p: Projection, a: Keyspace, b: Keyspace, c: Canonical)
    requires Faithful(h) && KeysSized(a) && KeysSized(b)
    requires IsManifest(h, names, p, a, c) && IsManifest(h, names, p, b, c)
    ensures View(names, p, a) == View(names, p, b)
  {
    SameManifestSameRecords(h, names, p, a, b, c);
    ViewsIncluded(h, names, p, a, b);
    ViewsIncluded(h, names, p, b, a);
    IncludedBothWays(View(names, p, a), View(names, p, b));
  }

  predicate Included<K, V(==)>(m: map<K, V>, n: map<K, V>) {
    forall k :: k in m ==> k in n && n[k] == m[k]
  }

  lemma IncludedBothWays<K, V>(m: map<K, V>, n: map<K, V>)
    requires Included(m, n) && Included(n, m)
    ensures m == n
  {
  }

  lemma ViewsIncluded(h: Hasher, names: Names, p: Projection, a: Keyspace, b: Keyspace)
    requires Faithful(h) && KeysSized(a) && KeysSized(b)
    requires AllReadable(names, p, a) && AllReadable(names, p, b)
    requires Records(h, names, p, a) <= Records(h, names, p, b)
    ensures Included(View(names, p, a), View(names, p, b))
  {
    forall k | k in View(names, p, a)
      ensures k in View(names, p, b) && View(names, p, b)[k] == View(names, p, a)[k]
    {
      ViewIncluded(h, names, p, a, b, k);
    }
  }

  lemma SameManifestSameRecords(
      h: Hasher, names: Names, p: Projection, a: Keyspace, b: Keyspace, c: Canonical)
    requires IsManifest(h, names, p, a, c) && IsManifest(h, names, p, b, c)
    ensures Records(h, names, p, a) == Records(h, names, p, b)
  {
    var s :| KeyOrder(names, p, a, s) && Lists(h, a, s, c.records);
    var t :| KeyOrder(names, p, b, t) && Lists(h, b, t, c.records);
    ManifestMembers(h, names, p, a, c.records, s);
    ManifestMembers(h, names, p, b, c.records, t);
  }

  /**
   Faithfulness: two keyspaces have the same manifest if and only if they show the same
   keys, types, dumps and expiries, apart from exactly the ignored names.
   */
  lemma ManifestIffView(
      h: Hasher, names: Names, p: Projection, a: Keyspace, b: Keyspace, c: Canonical, d: Canonical)
    requires Faithful(h) && KeysSized(a) && KeysSized(b)
    requires IsManifest(h, names, p, a, c) && IsManifest(h, names, p, b, d)
    ensures c == d <==> View(names, p, a) == View(names, p, b)
  {
    if c == d {
      SameManifestSameView(h, names, p, a, b, c);
    } else if View(names, p, a) == View(names, p, b) {
      SameViewSameManifest(h, names, p, a, b, c, d);
    }
  }

  /**
   The projection ignores exactly the ignored names: setting or removing a key leaves what
   is shown unchanged if and only if the key is ignored or nothing of it changed.
   */
  lemma IgnoresExactly(names: Names, p: Projection, ks: Keyspace, key: Bytes, e: Entry)
    ensures View(names, p, ks[key := e]) == View(names, p, ks) <==>
            || key == names.lock || (key == names.jobs && p == NonJob)
            || (key in ks && ks[key].kind == e.kind && ks[key].dump == e.dump && ks[key].expiry == e.expiry)
    ensures View(names, p, ks - {key}) == View(names, p, ks) <==>
            key == names.lock || (key == names.jobs && p == NonJob) || key !in ks
  {
    var set' := ks[key := e];
    if !Ignored(names, p, key) {
      assert key in View(names, p, set') && View(names, p, set')[key] == (e.kind, e.dump, e.expiry);
      assert key in ks ==> key in View(names, p, ks) && key !in View(names, p, ks - {key});
    }
  }
}
