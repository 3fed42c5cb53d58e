/** Mirroring a project's documents into a bucket, steered by cached checksums. */
module Documents {
  import opened Collections
  import opened Text

  type Bytes = seq<bv8>

  // ---- Paths ----

  const MAX_PATH_LENGTH := 200
  const MAX_PATH_DEPTH := 5

  predicate IsAlphanumeric(c: char) {
    'A' <= c <= 'Z' || 'a' <= c <= 'z' || '0' <= c <= '9'
  }

  predicate IsSegment(s: string) {
    && s != "" && IsAlphanumeric(s[0])
    && forall i :: 0 <= i < |s| ==> IsAlphanumeric(s[i]) || s[i] == '.' || s[i] == '_' || s[i] == '-'
  }

  predicate IsSafeDocumentPath(path: string) {
    && 0 < |path| <= MAX_PATH_LENGTH
    && |Split(path, '/')| <= MAX_PATH_DEPTH
    && forall i :: 0 <= i < |Split(path, '/')| ==> IsSegment(Split(path, '/')[i])
  }

  /** A safe path is its segments joined by slashes; none is empty, `.` or `..`, so it names a place below its root. */
  lemma SafePathStaysBelow(path: string)
    requires IsSafeDocumentPath(path)
    ensures JoinWith(Split(path, '/'), '/') == path
    ensures path[0] != '/' && path[|path| - 1] != '/'
    ensures forall i :: 0 <= i < |Split(path, '/')| ==> Split(path, '/')[i] !in {"", ".", ".."}
  {
    JoinSplit(path, '/');
    JoinEnds(Split(path, '/'));
  }

  /** A name of letters, digits, dots, underscores and hyphens that starts with a letter or a digit. */
  ghost predicate IsPlainName(s: string) {
    && s != "" && s[0] !in {'.', '_', '-'}
    && forall i :: 0 <= i < |s| ==>
         'a' <= s[i] <= 'z' || 'A' <= s[i] <= 'Z' || '0' <= s[i] <= '9' || s[i] in {'.', '_', '-'}
  }

  lemma SegmentsAreNames(s: string)
    ensures IsSegment(s) <==> IsPlainName(s)
  {
  }

  ghost predicate MadeOf(path: string, names: seq<string>) {
    && 1 <= |names| <= 5 && path == JoinWith(names, '/')
    && forall i :: 0 <= i < |names| ==> IsPlainName(names[i])
  }

  lemma NamesHaveNoSlash(names: seq<string>)
    requires forall i :: 0 <= i < |names| ==> IsSegment(names[i])
    ensures forall i :: 0 <= i < |names| ==> '/' !in names[i]
  {
  }

  /** The safe paths are exactly those of at most 200 characters made of one to five such names. */
  lemma SafePathsAre(path: string)
    ensures IsSafeDocumentPath(path) <==> |path| <= 200 && exists names :: MadeOf(path, names)
  {
    hide IsSegment, IsPlainName, Split, JoinWith;
    if IsSafeDocumentPath(path) {
      var names := Split(path, '/');
      JoinSplit(path, '/');
      forall i | 0 <= i < |names| ensures IsPlainName(names[i]) {
        SegmentsAreNames(names[i]);
      }
      assert MadeOf(path, names);
    } else if |path| <= 200 && exists names :: MadeOf(path, names) {
      var names :| MadeOf(path, names);
      forall i | 0 <= i < |names| ensures IsSegment(names[i]) {
        SegmentsAreNames(names[i]);
      }
      NamesHaveNoSlash(names);
      SplitJoin(names, '/');
      JoinEnds(names);
      assert false;
    }
  }

  lemma {:induction false} JoinEnds(segments: seq<string>)
    requires segments != [] && forall i :: 0 <= i < |segments| ==> IsSegment(segments[i])
    ensures var path := JoinWith(segments, '/'); path != "" && path[0] != '/' && path[|path| - 1] != '/'
  {
    if |segments| > 1 {
      JoinEnds(segments[1..]);
    }
  }

  // ---- The plan ----

  datatype ManifestEntry = ManifestEntry(path: string, size: nat, sha256: string)

  datatype Plan = Plan(upload: seq<ManifestEntry>, remove: seq<string>)

  function Wanted(manifest: seq<ManifestEntry>): seq<ManifestEntry> {
    if manifest == [] then []
    else
      var rest := Wanted(manifest[..|manifest| - 1]);
      var last := manifest[|manifest| - 1];
      if IsSafeDocumentPath(last.path) then rest + [last] else rest
  }

  function ToUpload(wanted: seq<ManifestEntry>, stored: seq<string>, state: map<string, string>): seq<ManifestEntry> {
    if wanted == [] then []
    else
      var rest := ToUpload(wanted[..|wanted| - 1], stored, state);
      var last := wanted[|wanted| - 1];
      if last.path !in stored || last.path !in state || state[last.path] != last.sha256 then rest + [last] else rest
  }

  function ToRemove(wanted: seq<ManifestEntry>, stored: seq<string>): seq<string> {
    if stored == [] then []
    else
      var rest := ToRemove(wanted, stored[..|stored| - 1]);
      var last := stored[|stored| - 1];
      if Lists(wanted, last) then rest else rest + [last]
  }

  predicate Lists(entries: seq<ManifestEntry>, path: string) {
    exists i :: 0 <= i < |entries| && entries[i].path == path
  }

  function PlanDocumentSync(manifest: seq<ManifestEntry>, stored: seq<string>, state: map<string, string>): Plan {
    var wanted := Wanted(manifest);
    Plan(ToUpload(wanted, stored, state), ToRemove(wanted, stored))
  }

  ghost predicate DistinctPaths(entries: seq<ManifestEntry>) {
    forall i, j :: 0 <= i < j < |entries| ==> entries[i].path != entries[j].path
  }

  ghost predicate NeedsUpload(d: ManifestEntry, stored: seq<string>, state: map<string, string>) {
    d.path !in stored || d.path !in state || state[d.path] != d.sha256
  }

  lemma {:induction false} WantedMeaning(manifest: seq<ManifestEntry>)
    ensures forall d :: d in Wanted(manifest) <==> d in manifest && IsSafeDocumentPath(d.path)
    ensures DistinctPaths(manifest) ==> DistinctPaths(Wanted(manifest))
  {
    hide IsSafeDocumentPath;
    if manifest != [] {
      var before := manifest[..|manifest| - 1];
      WantedMeaning(before);
      assert manifest == before + [manifest[|manifest| - 1]];
      assert forall i :: 0 <= i < |Wanted(before)| ==> Wanted(before)[i] in before;
    }
  }

  lemma {:induction false} UploadMeaning(wanted: seq<ManifestEntry>, stored: seq<string>, state: map<string, string>)
    ensures forall d :: d in ToUpload(wanted, stored, state) <==> d in wanted && NeedsUpload(d, stored, state)
    ensures DistinctPaths(wanted) ==> DistinctPaths(ToUpload(wanted, stored, state))
  {
    if wanted != [] {
      var before := wanted[..|wanted| - 1];
      UploadMeaning(before, stored, state);
      assert wanted == before + [wanted[|wanted| - 1]];
      var u := ToUpload(before, stored, state);
      assert forall i :: 0 <= i < |u| ==> u[i] in before;
    }
  }

  lemma {:induction false} RemoveMeaning(wanted: seq<ManifestEntry>, stored: seq<string>)
    ensures forall k :: k in ToRemove(wanted, stored) <==> k in stored && !Lists(wanted, k)
    ensures Distinct(stored) ==> Distinct(ToRemove(wanted, stored))
  {
    hide Lists;
    if stored != [] {
      var before := stored[..|stored| - 1];
      RemoveMeaning(wanted, before);
      assert stored == before + [stored[|stored| - 1]];
      var r := ToRemove(wanted, before);
      assert forall i :: 0 <= i < |r| ==> r[i] in before;
    }
  }

  // ---- What may happen to one document ----

  /** `PutLost`: the object was stored, but the call reported a failure. */
  datatype Put = Stored | PutRejected | PutLost

  datatype Transfer = DownloadFailed | Downloaded(bytes: Bytes, put: Put)

  datatype Removal = Removed | RemoveRejected | RemoveLost

  // ---- The mirror ----

  class Mirror {
    const digest: Bytes -> string
    /** The object store's bucket, and this runner's checksums of what it last uploaded. */
    var created: bool
    var bucket: map<string, Bytes>
    var state: map<string, string>

    constructor (digest: Bytes -> string)
      ensures this.digest == digest && Valid() && bucket == map[] && state == map[] && Agree()
    {
      this.digest := digest;
      created, bucket, state := false, map[], map[];
    }

    ghost predicate Valid()
      reads this
    {
      !created ==> bucket == map[]
    }

    /** Wherever both know a key, the checksum is that of the stored object. */
    ghost predicate Agree()
      reads this
    {
      forall k :: AgreesAt(k, bucket, state)
    }

    ghost predicate AgreesAt(k: string, bucket: map<string, Bytes>, state: map<string, string>) {
      k in bucket && k in state ==> digest(bucket[k]) == state[k]
    }

    /** Size and SHA-256 are what the control plane recorded. */
    predicate Verified(d: ManifestEntry, t: Transfer) {
      t.Downloaded? && |t.bytes| == d.size && digest(t.bytes) == d.sha256
    }

    predicate Arrives(d: ManifestEntry, t: Transfer) {
      Verified(d, t) && !t.put.PutRejected?
    }

    predicate Acknowledged(d: ManifestEntry, t: Transfer) {
      Verified(d, t) && t.put.Stored?
    }

    // ---- One document ----

    method Upload(d: ManifestEntry, t: Transfer) returns (ok: bool)
      modifies this`bucket, this`state
      ensures ok == Acknowledged(d, t)
      ensures bucket == if Arrives(d, t) then old(bucket)[d.path := t.bytes] else old(bucket)
      ensures state == if Acknowledged(d, t) then old(state)[d.path := d.sha256] else old(state)
    {
      if t.DownloadFailed? || |t.bytes| != d.size || digest(t.bytes) != d.sha256 {
        return false;
      }
      if t.put.PutRejected? {
        return false;
      }
      bucket := bucket[d.path := t.bytes];
      if t.put.PutLost? {
        return false;
      }
      state := state[d.path := d.sha256];
      ok := true;
    }

    method Remove(key: string, r: Removal) returns (ok: bool)
      modifies this`bucket, this`state
      ensures ok == r.Removed?
      ensures bucket == if r.RemoveRejected? then old(bucket) else old(bucket) - {key}
      ensures state == if r.Removed? then old(state) - {key} else old(state)
    {
      if r.RemoveRejected? {
        return false;
      }
      bucket := bucket - {key};
      if r.RemoveLost? {
        return false;
      }
      state := state - {key};
      ok := true;
    }

    // ---- One sync ----

    /** The bucket and the state after the uploads, key by key. */
    ghost predicate AfterUploads(uploads: seq<ManifestEntry>, transfer: string -> Transfer,
                                 bucket0: map<string, Bytes>, state0: map<string, string>,
                                 bucket1: map<string, Bytes>, state1: map<string, string>)
    {
      && (forall i :: 0 <= i < |uploads| ==> DocumentDone(uploads[i], transfer(uploads[i].path), bucket0, state0, bucket1, state1))
      && (forall k :: !Lists(uploads, k) ==> SameAt(k, bucket0, bucket1) && SameAt(k, state0, state1))
    }

    ghost predicate DocumentDone(d: ManifestEntry, t: Transfer, bucket0: map<string, Bytes>,
                                 state0: map<string, string>,
                                 bucket1: map<string, Bytes>, state1: map<string, string>)
    {
      && (if Arrives(d, t) then d.path in bucket1 && bucket1[d.path] == t.bytes else SameAt(d.path, bucket0, bucket1))
      && (if Acknowledged(d, t) then d.path in state1 && state1[d.path] == d.sha256 else SameAt(d.path, state0, state1))
    }

    static ghost predicate SameAt<V>(k: string, a: map<string, V>, b: map<string, V>) {
      (k in a <==> k in b) && (k in a ==> a[k] == b[k])
    }

    /** The bucket and the state after the removals, key by key. */
    ghost predicate AfterRemovals(removals: seq<string>, removal: string -> Removal,
                                  bucket0: map<string, Bytes>, state0: map<string, string>,
                                  bucket1: map<string, Bytes>, state1: map<string, string>)
    {
      forall k :: KeyDone(k, removals, removal, bucket0, state0, bucket1, state1)
    }

    ghost predicate KeyDone(k: string, removals: seq<string>, removal: string -> Removal,
                            bucket0: map<string, Bytes>, state0: map<string, string>,
                            bucket1: map<string, Bytes>, state1: map<string, string>)
    {
      && (if k in removals && !removal(k).RemoveRejected? then k !in bucket1 else SameAt(k, bucket0, bucket1))
      && (if k in removals && removal(k).Removed? then k !in state1 else SameAt(k, state0, state1))
    }

    /** The uploads among the first `n` that were acknowledged. */
    ghost function Uploaded(uploads: seq<ManifestEntry>, transfer: string -> Transfer, n: nat): set<int>
      requires n <= |uploads|
    {
      set i | 0 <= i < n && Acknowledged(uploads[i], transfer(uploads[i].path))
    }

    static ghost function Gone(removals: seq<string>, removal: string -> Removal, n: nat): set<int>
      requires n <= |removals|
    {
      set i | 0 <= i < n && removal(removals[i]).Removed?
    }

    lemma UploadedMore(uploads: seq<ManifestEntry>, transfer: string -> Transfer, n: nat)
      requires n < |uploads|
      ensures |Uploaded(uploads, transfer, n + 1)|
           == |Uploaded(uploads, transfer, n)| + if Acknowledged(uploads[n], transfer(uploads[n].path)) then 1 else 0
    {
      hide Acknowledged;
      assert Uploaded(uploads, transfer, n + 1) == Uploaded(uploads, transfer, n)
        + if Acknowledged(uploads[n], transfer(uploads[n].path)) then {n as int} else {};
    }

    lemma GoneMore(removals: seq<string>, removal: string -> Removal, n: nat)
      requires n < |removals|
      ensures |Gone(removals, removal, n + 1)|
           == |Gone(removals, removal, n)| + if removal(removals[n]).Removed? then 1 else 0
    {
      assert Gone(removals, removal, n + 1) == Gone(removals, removal, n)
        + if removal(removals[n]).Removed? then {n as int} else {};
    }

    method UploadAll(uploads: seq<ManifestEntry>, transfer: string -> Transfer) returns (uploaded: nat)
      requires DistinctPaths(uploads)
      modifies this`bucket, this`state
      ensures AfterUploads(uploads, transfer, old(bucket), old(state), bucket, state)
      ensures uploaded <= |uploads|
      ensures uploaded == |uploads| <==> forall i :: 0 <= i < |uploads| ==> Acknowledged(uploads[i], transfer(uploads[i].path))
      ensures uploaded == |Uploaded(uploads, transfer, |uploads|)|
    {
      uploaded := 0;
      for n := 0 to |uploads|
        invariant AfterUploads(uploads[..n], transfer, old(bucket), old(state), bucket, state)
        invariant uploaded <= n
        invariant uploaded == n <==> forall i :: 0 <= i < n ==> Acknowledged(uploads[i], transfer(uploads[i].path))
        invariant uploaded == |Uploaded(uploads, transfer, n)|
      {
        var d := uploads[n];
        assert !Lists(uploads[..n], d.path);
        ghost var bucket1, state1 := bucket, state;
        var ok := Upload(d, transfer(d.path));
        UploadedMore(uploads, transfer, n);
        OneMore(uploads, n, transfer, old(bucket), old(state), bucket1, state1, bucket, state);
        if ok {
          uploaded := uploaded + 1;
        }
      }
      assert uploads[..|uploads|] == uploads;
    }

    lemma OneMore(uploads: seq<ManifestEntry>, n: nat, transfer: string -> Transfer,
                  bucket0: map<string, Bytes>, state0: map<string, string>,
                  bucket1: map<string, Bytes>, state1: map<string, string>,
                  bucket2: map<string, Bytes>, state2: map<string, string>)
      requires n < |uploads| && DistinctPaths(uploads)
      requires AfterUploads(uploads[..n], transfer, bucket0, state0, bucket1, state1)
      requires var d := uploads[n];
        && bucket2 == (if Arrives(d, transfer(d.path)) then bucket1[d.path := transfer(d.path).bytes] else bucket1)
        && state2 == (if Acknowledged(d, transfer(d.path)) then state1[d.path := d.sha256] else state1)
      ensures AfterUploads(uploads[..n + 1], transfer, bucket0, state0, bucket2, state2)
    {
      hide Arrives, Acknowledged;
      var d := uploads[n];
      assert !Lists(uploads[..n], d.path);
      var head := uploads[..n + 1];
      forall i | 0 <= i < |head| ensures DocumentDone(head[i], transfer(head[i].path), bucket0, state0, bucket2, state2) {
        if i < n {
          assert head[i] == uploads[..n][i] && uploads[i].path != d.path;
        }
      }
      forall k: string | !Lists(head, k) ensures SameAt(k, bucket0, bucket2) && SameAt(k, state0, state2) {
        assert head[n] == d;
        assert forall i :: 0 <= i < n ==> head[i] == uploads[..n][i];
        assert !Lists(uploads[..n], k);
      }
    }

    method RemoveAll(removals: seq<string>, removal: string -> Removal) returns (removed: nat)
      modifies this`bucket, this`state
      ensures AfterRemovals(removals, removal, old(bucket), old(state), bucket, state)
      ensures removed <= |removals|
      ensures removed == |removals| <==> forall i :: 0 <= i < |removals| ==> removal(removals[i]).Removed?
      ensures removed == |Gone(removals, removal, |removals|)|
    {
      removed := 0;
      for n := 0 to |removals|
        invariant AfterRemovals(removals[..n], removal, old(bucket), old(state), bucket, state)
        invariant removed <= n
        invariant removed == n <==> forall i :: 0 <= i < n ==> removal(removals[i]).Removed?
        invariant removed == |Gone(removals, removal, n)|
      {
        ghost var bucket1, state1 := bucket, state;
        var ok := Remove(removals[n], removal(removals[n]));
        GoneMore(removals, removal, n);
        OneRemovalMore(removals, n, removal, old(bucket), old(state), bucket1, state1, bucket, state);
        if ok {
          removed := removed + 1;
        }
      }
      assert removals[..|removals|] == removals;
    }

    lemma OneRemovalMore(removals: seq<string>, n: nat, removal: string -> Removal,
                         bucket0: map<string, Bytes>, state0: map<string, string>,
                         bucket1: map<string, Bytes>, state1: map<string, string>,
                         bucket2: map<string, Bytes>, state2: map<string, string>)
      requires n < |removals| && AfterRemovals(removals[..n], removal, bucket0, state0, bucket1, state1)
      requires var key := removals[n];
        && bucket2 == (if removal(key).RemoveRejected? then bucket1 else bucket1 - {key})
        && state2 == (if removal(key).Removed? then state1 - {key} else state1)
      ensures AfterRemovals(removals[..n + 1], removal, bucket0, state0, bucket2, state2)
    {
      var before, after := removals[..n], removals[..n + 1];
      assert after == before + [removals[n]];
      forall k ensures KeyDone(k, after, removal, bucket0, state0, bucket2, state2) {
        assert k in after <==> k in before || k == removals[n];
        assert KeyDone(k, before, removal, bucket0, state0, bucket1, state1);
      }
    }

    /** An upload that was stored without an acknowledgement, over an entry with another checksum. */
    ghost predicate Forgets(d: ManifestEntry, t: Transfer, 
                                state0: map<string, string>)
    {
      Verified(d, t) && t.put.PutLost? && d.path in state0 && state0[d.path] != d.sha256
    }

    ghost predicate ForgetsSome(uploads: seq<ManifestEntry>, transfer: string -> Transfer,
                                state0: map<string, string>)
    {
      exists i :: 0 <= i < |uploads| && Forgets(uploads[i], transfer(uploads[i].path), state0)
    }

    lemma UploadedAgrees(d: ManifestEntry, t: Transfer, bucket0: map<string, Bytes>, state0: map<string, string>,
                         bucket1: map<string, Bytes>, state1: map<string, string>)
      requires DocumentDone(d, t, bucket0, state0, bucket1, state1) && AgreesAt(d.path, bucket0, state0)
      ensures AgreesAt(d.path, bucket1, state1) <==> !Forgets(d, t, state0)
    {
    }

    /** The removals concern other keys than the wanted documents. */
    lemma RemovalsSpare(wanted: seq<ManifestEntry>, removals: seq<string>, removal: string -> Removal, k: string,
                        bucket1: map<string, Bytes>, state1: map<string, string>,
                        bucket2: map<string, Bytes>, state2: map<string, string>)
      requires AfterRemovals(removals, removal, bucket1, state1, bucket2, state2)
      requires forall k :: k in removals ==> !Lists(wanted, k)
      ensures Lists(wanted, k) ==> SameAt(k, bucket1, bucket2) && SameAt(k, state1, state2)
      ensures AgreesAt(k, bucket1, state1) ==> AgreesAt(k, bucket2, state2)
    {
      hide Lists;
      assert KeyDone(k, removals, removal, bucket1, state1, bucket2, state2);
    }

    lemma AgreementAfter(wanted: seq<ManifestEntry>, plan: Plan,
                         transfer: string -> Transfer, removal: string -> Removal,
                         bucket0: map<string, Bytes>, state0: map<string, string>,
                         bucket1: map<string, Bytes>, state1: map<string, string>,
                         bucket2: map<string, Bytes>, state2: map<string, string>)
      requires AfterUploads(plan.upload, transfer, bucket0, state0, bucket1, state1)
      requires AfterRemovals(plan.remove, removal, bucket1, state1, bucket2, state2)
      requires forall i :: 0 <= i < |plan.upload| ==> plan.upload[i] in wanted
      requires forall k :: k in plan.remove ==> !Lists(wanted, k)
      requires forall k :: AgreesAt(k, bucket0, state0)
      ensures (forall k :: AgreesAt(k, bucket2, state2)) <==> !ForgetsSome(plan.upload, transfer, state0)
    {
      hide AfterRemovals, DocumentDone, Forgets;
      forall i | 0 <= i < |plan.upload|
        ensures AgreesAt(plan.upload[i].path, bucket2, state2) <==> !Forgets(plan.upload[i], transfer(plan.upload[i].path), state0)
      {
        var d := plan.upload[i];
        UploadedAgrees(d, transfer(d.path), bucket0, state0, bucket1, state1);
        assert Lists(wanted, d.path);
        RemovalsSpare(wanted, plan.remove, removal, d.path, bucket1, state1, bucket2, state2);
      }
      forall k | !Lists(plan.upload, k) ensures AgreesAt(k, bucket2, state2) {
        assert AgreesAt(k, bucket0, state0);
        RemovalsSpare(wanted, plan.remove, removal, k, bucket1, state1, bucket2, state2);
      }
    }

    /** The wanted documents are stored with their recorded checksums. */
    ghost predicate Holds(d: ManifestEntry, bucket: map<string, Bytes>, state: map<string, string>) {
      && d.path in bucket && digest(bucket[d.path]) == d.sha256
      && d.path in state && state[d.path] == d.sha256
    }

    ghost predicate HoldsExactly(wanted: seq<ManifestEntry>, bucket: map<string, Bytes>, state: map<string, string>) {
      && (forall i :: 0 <= i < |wanted| ==> Holds(wanted[i], bucket, state))
      && (forall k :: k in bucket ==> Lists(wanted, k))
    }

    /** A document that needs no upload is already there, with its recorded checksum. */
    lemma SkippedIsStored(d: ManifestEntry, stored: seq<string>, bucket0: map<string, Bytes>,
                          state0: map<string, string>)
      requires !NeedsUpload(d, stored, state0) && AgreesAt(d.path, bucket0, state0)
      requires d.path in stored <==> d.path in bucket0
      ensures Holds(d, bucket0, state0)
    {
    }

    lemma MirrorAfter(wanted: seq<ManifestEntry>, stored: seq<string>, plan: Plan,
                      transfer: string -> Transfer, removal: string -> Removal,
                      bucket0: map<string, Bytes>, state0: map<string, string>,
                      bucket1: map<string, Bytes>, state1: map<string, string>,
                      bucket2: map<string, Bytes>, state2: map<string, string>)
      requires AfterUploads(plan.upload, transfer, bucket0, state0, bucket1, state1)
      requires AfterRemovals(plan.remove, removal, bucket1, state1, bucket2, state2)
      requires forall d :: d in plan.upload <==> d in wanted && NeedsUpload(d, stored, state0)
      requires forall k :: k in plan.remove <==> k in stored && !Lists(wanted, k)
      requires forall k :: (k in stored <==> k in bucket0) && AgreesAt(k, bucket0, state0)
      requires DistinctPaths(wanted)
      requires forall i :: 0 <= i < |plan.upload| ==> Acknowledged(plan.upload[i], transfer(plan.upload[i].path))
      requires forall i :: 0 <= i < |plan.remove| ==> removal(plan.remove[i]).Removed?
      ensures HoldsExactly(wanted, bucket2, state2)
    {
      hide NeedsUpload, AfterRemovals;
      forall i | 0 <= i < |wanted| ensures Holds(wanted[i], bucket2, state2) {
        var d := wanted[i];
        if d in plan.upload {
          var j :| 0 <= j < |plan.upload| && plan.upload[j] == d;
        } else {
          SkippedIsStored(d, stored, bucket0, state0);
          NotPlanned(wanted, plan.upload, d);
        }
        RemovalsSpare(wanted, plan.remove, removal, d.path, bucket1, state1, bucket2, state2);
      }
      forall k | !Lists(wanted, k) ensures k !in bucket2 {
        UnwantedIsGone(wanted, stored, plan, transfer, removal, k, bucket0, state0, bucket1, state1, bucket2, state2);
      }
    }

    lemma UnwantedIsGone(wanted: seq<ManifestEntry>, stored: seq<string>, plan: Plan,
                           transfer: string -> Transfer, removal: string -> Removal, k: string,
                           bucket0: map<string, Bytes>, state0: map<string, string>,
                           bucket1: map<string, Bytes>, state1: map<string, string>,
                           bucket2: map<string, Bytes>, state2: map<string, string>)
      requires AfterUploads(plan.upload, transfer, bucket0, state0, bucket1, state1)
      requires AfterRemovals(plan.remove, removal, bucket1, state1, bucket2, state2)
      requires forall d :: d in plan.upload ==> d in wanted
      requires forall k :: k in plan.remove <==> k in stored && !Lists(wanted, k)
      requires k in stored <==> k in bucket0
      requires forall i :: 0 <= i < |plan.remove| ==> removal(plan.remove[i]).Removed?
      requires !Lists(wanted, k)
      ensures k !in bucket2
    {
      ListsMore(plan.upload, wanted, k);
      hide Lists;
      assert SameAt(k, bucket0, bucket1);
      assert KeyDone(k, plan.remove, removal, bucket1, state1, bucket2, state2);
    }

    /** The per-file work of one sync. Agreement survives it exactly when no lost acknowledgement concerns a key whose
        recorded checksum differs; and without failures the bucket becomes the manifest. */
    method SyncFiles(manifest: seq<ManifestEntry>, listing: seq<string>,
                     transfer: string -> Transfer, removal: string -> Removal)
      returns (plan: Plan, uploaded: nat, removed: nat)
      requires DistinctPaths(manifest) && Agree()
      requires forall k :: k in listing <==> k in bucket
      modifies this`bucket, this`state
      ensures plan == PlanDocumentSync(manifest, listing, old(state))
      ensures uploaded == |Uploaded(plan.upload, transfer, |plan.upload|)| <= |plan.upload|
      ensures removed == |Gone(plan.remove, removal, |plan.remove|)| <= |plan.remove|
      ensures Agree() <==> !ForgetsSome(plan.upload, transfer, old(state))
      ensures uploaded == |plan.upload| && removed == |plan.remove| ==> HoldsExactly(Wanted(manifest), bucket, state)
    {
      plan := PlanDocumentSync(manifest, listing, state);
      PlanMeaning(manifest, listing, state);
      hide PlanDocumentSync, AfterUploads, AfterRemovals, Uploaded, Gone, Wanted, HoldsExactly, Lists, NeedsUpload, ForgetsSome;
      assert forall k :: AgreesAt(k, bucket, state);
      uploaded := UploadAll(plan.upload, transfer);
      ghost var bucket1, state1 := bucket, state;
      removed := RemoveAll(plan.remove, removal);
      AgreementAfter(Wanted(manifest), plan, transfer, removal, old(bucket), old(state), bucket1, state1, bucket,
                     state);
      if uploaded == |plan.upload| && removed == |plan.remove| {
        MirrorAfter(Wanted(manifest), listing, plan, transfer, removal, old(bucket), old(state), bucket1, state1,
                    bucket, state);
      }
    }

    method ListKeys() returns (keys: seq<string>)
      ensures forall k :: k in keys <==> k in bucket
    {
      keys := [];
      var rest := bucket.Keys;
      while rest != {}
        invariant rest <= bucket.Keys
        invariant forall k :: k in keys <==> k in bucket && k !in rest
        decreases |rest|
      {
        var k :| k in rest;
        keys := keys + [k];
        rest := rest - {k};
      }
    }

    lemma NothingWanted(bucket: map<string, Bytes>, state: map<string, string>)
      ensures HoldsExactly(Wanted([]), bucket, state) ==> bucket == map[]
    {
    }

    /** The whole sync. A project without documents never starts the store; an unreadable state file counts as empty. */
    method SyncProjectDocuments(request: Request) returns (r: SyncResult)
      requires Valid() && Agree() && DistinctPaths(request.manifest)
      modifies this
      ensures Valid()
      ensures r.uploaded == |Uploaded(r.plan.upload, request.transfer, |r.plan.upload|)|
      ensures r.removed == |Gone(r.plan.remove, request.removal, |r.plan.remove|)|
      ensures r.uploaded + r.removed + r.failed == |r.plan.upload| + |r.plan.remove|
      ensures created == (old(created) || request.manifest != [])
      ensures NothingToDo(request, old(created)) ==>
        bucket == old(bucket) && state == old(state) && r == SyncResult(Plan([], []), 0, 0, 0)
      ensures !NothingToDo(request, old(created)) ==>
        IsPlanFor(r.plan, request.manifest, old(bucket), if request.stateReadable then old(state) else map[])
      ensures Agree() <==>
        !ForgetsSome(r.plan.upload, request.transfer, if request.stateReadable then old(state) else map[])
      ensures !NothingToDo(request, old(created)) && r.failed == 0 ==>
        HoldsExactly(Wanted(request.manifest), bucket, state)
      ensures !NothingToDo(request, old(created)) && r.failed == 0 && request.manifest == [] ==> bucket == map[]
    {
      if |request.manifest| == 0 {
        if !request.storeRunning || !created {
          return SyncResult(Plan([], []), 0, 0, 0);
        }
      } else {
        created := true;
      }
      if !request.stateReadable {
        state := map[];
      }
      assert forall k :: AgreesAt(k, bucket, state) by {
        assert forall k :: AgreesAt(k, bucket, old(state));
      }
      hide PlanDocumentSync, ForgetsSome, AgreesAt, Uploaded, Gone;
      var listing := ListKeys();
      assert IsPlanFor(PlanDocumentSync(request.manifest, listing, state), request.manifest, bucket, state);
      var plan, uploaded, removed := SyncFiles(request.manifest, listing, request.transfer, request.removal);
      if request.manifest == [] {
        NothingWanted(bucket, state);
      }
      r := SyncResult(plan, uploaded, removed, |plan.upload| + |plan.remove| - uploaded - removed);
    }

    /** After any sequence of syncs in which failed calls had no effect, or lost their acknowledgement only on deletes,
        every cached checksum is that of the stored object. */
    method SyncAll(requests: seq<Request>)
      requires Valid() && Agree()
      requires forall i :: 0 <= i < |requests| ==> DistinctPaths(requests[i].manifest) && !LosesPuts(requests[i])
      modifies this
      ensures Valid() && Agree()
    {
      for i := 0 to |requests|
        invariant Valid() && Agree()
      {
        var _ := SyncProjectDocuments(requests[i]);
      }
    }
  }

  datatype Request = Request(manifest: seq<ManifestEntry>, storeRunning: bool, stateReadable: bool,
                             transfer: string -> Transfer, removal: string -> Removal)

  /** Without documents there is work only when an earlier sync filled the bucket of a store that still runs. */
  predicate NothingToDo(request: Request, created: bool) {
    request.manifest == [] && (!request.storeRunning || !created)
  }

  /** The plan for some listing of exactly the keys in the bucket. */
  ghost predicate IsPlanFor(plan: Plan, manifest: seq<ManifestEntry>, bucket: map<string, Bytes>,
                            state: map<string, string>)
  {
    exists listing: seq<string> ::
      (forall k :: k in listing <==> k in bucket) && plan == PlanDocumentSync(manifest, listing, state)
  }

  datatype SyncResult = SyncResult(plan: Plan, uploaded: nat, removed: nat, failed: nat)

  ghost predicate LosesPuts(r: Request) {
    exists path :: r.transfer(path).Downloaded? && r.transfer(path).put.PutLost?
  }

  lemma ListsMore(some: seq<ManifestEntry>, all: seq<ManifestEntry>, k: string)
    requires Lists(some, k) ==> forall d :: d in some ==> d in all
    ensures Lists(some, k) ==> Lists(all, k)
  {
    if i :| 0 <= i < |some| && some[i].path == k {
      assert some[i] in all;
    }
  }

  lemma NotPlanned(wanted: seq<ManifestEntry>, uploads: seq<ManifestEntry>, d: ManifestEntry)
    requires DistinctPaths(wanted) && d in wanted && d !in uploads && forall e :: e in uploads ==> e in wanted
    ensures !Lists(uploads, d.path)
  {
    forall j | 0 <= j < |uploads| ensures uploads[j].path != d.path {
      if uploads[j].path == d.path {
        SamePath(wanted, d, uploads[j]);
        assert false;
      }
    }
  }

  lemma SamePath(entries: seq<ManifestEntry>, d: ManifestEntry, e: ManifestEntry)
    requires DistinctPaths(entries) && d in entries && e in entries && d.path == e.path
    ensures d == e
  {
  }

  /** What the plan contains: the wanted documents that are missing or changed, and the stored keys not wanted. */
  lemma PlanMeaning(manifest: seq<ManifestEntry>, stored: seq<string>, state: map<string, string>)
    ensures var plan := PlanDocumentSync(manifest, stored, state);
      && (forall d :: d in plan.upload <==> d in Wanted(manifest) && NeedsUpload(d, stored, state))
      && (forall k :: k in plan.remove <==> k in stored && !Lists(Wanted(manifest), k))
      && (DistinctPaths(manifest) ==> DistinctPaths(plan.upload) && DistinctPaths(Wanted(manifest)))
  {
    WantedMeaning(manifest);
    UploadMeaning(Wanted(manifest), stored, state);
    RemoveMeaning(Wanted(manifest), stored);
  }

  /** Once the bucket is the manifest, there is nothing left to do. */
  lemma NextPlanIsEmpty(m: Mirror, manifest: seq<ManifestEntry>, listing: seq<string>)
    requires m.HoldsExactly(Wanted(manifest), m.bucket, m.state)
    requires forall k :: k in listing <==> k in m.bucket
    ensures PlanDocumentSync(manifest, listing, m.state) == Plan([], [])
  {
    PlanMeaning(manifest, listing, m.state);
    var wanted, plan := Wanted(manifest), PlanDocumentSync(manifest, listing, m.state);
    HasFirst(plan.upload);
    HasFirst(plan.remove);
    hide PlanDocumentSync, Wanted, Lists;
    forall d | d in wanted ensures !NeedsUpload(d, listing, m.state) {
      var i :| 0 <= i < |wanted| && wanted[i] == d;
      assert m.Holds(wanted[i], m.bucket, m.state);
    }
  }

  lemma HasFirst<T>(s: seq<T>)
    ensures s == [] || s[0] in s
  {
  }

  // ---- A lost acknowledgement ----

  function Guide(sha256: string): ManifestEntry {
    ManifestEntry("a", 1, sha256)
  }

  lemma GuideIsPlanned(sha256: string, listing: seq<string>, state: map<string, string>)
    ensures var plan := PlanDocumentSync([Guide(sha256)], listing, state);
      plan.upload == if NeedsUpload(Guide(sha256), listing, state) then [Guide(sha256)] else []
  {
    var manifest := [Guide(sha256)];
    assert IsSafeDocumentPath("a") by {
      SplitJoin(["a"], '/');
      assert JoinWith(["a"], '/') == "a";
      assert IsSegment("a");
    }
    hide IsSafeDocumentPath;
    assert manifest[..|manifest| - 1] == [] && manifest[|manifest| - 1] == Guide(sha256);
    assert Wanted(manifest) == manifest;
    assert ToUpload(manifest[..|manifest| - 1], listing, state) == [];
  }

  /** A document is uploaded, replaced with a lost acknowledgement, and put back: each time it is what the plan
      uploads, except the last time, and the bucket keeps the content that was withdrawn. */
  method LostAcknowledgement() returns (m: Mirror)
    ensures !m.Agree() && "a" in m.bucket && m.digest(m.bucket["a"]) == "second"
    ensures forall listing :: (forall k :: k in listing <==> k in m.bucket) ==>
      PlanDocumentSync([Guide("first")], listing, m.state).upload == []
  {
    hide PlanDocumentSync, IsSafeDocumentPath;
    m := new Mirror((b: Bytes) => if b == [1 as bv8] then "first" else "second");
    GuideIsPlanned("first", [], m.state);
    var _ := m.Upload(Guide("first"), Downloaded([1], Stored));
    GuideIsPlanned("second", ["a"], m.state);
    assert "first" != "second" by {
      assert "first"[0] != "second"[0];
    }
    var _ := m.Upload(Guide("second"), Downloaded([2], PutLost));
    assert !m.AgreesAt("a", m.bucket, m.state);
    forall listing | forall k :: k in listing <==> k in m.bucket
      ensures PlanDocumentSync([Guide("first")], listing, m.state).upload == []
    {
      GuideIsPlanned("first", listing, m.state);
      assert "a" in listing;
    }
  }
}
