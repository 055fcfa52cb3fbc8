/** The two artifact stores. A stored version is written once and re-checked before every deploy:
    `verify_checksum` recomputes the checksum `finalize_version` recorded in `metadata.json`.

    Listing a directory or a bucket prefix yields the files in no particular order, so `ListFiles`
    is nondeterministic. SHA-256 (`hash`) and the JSON rendering of the metadata (`render`, `parse`)
    are parameters. */
module ArtifactStores {
  import opened Wrappers
  import opened ArtifactChecksum

  type Files = map<string, string>

  datatype Outcome = Stored(checksum: string) | AlreadyExists

  const METADATA := "metadata.json"

  // `p.name == "metadata.json"`, at any depth.
  predicate IsMetadata(path: string) {
    path == METADATA || EndsWith(path, "/" + METADATA)
  }

  predicate EndsWith(s: string, t: string) { |t| <= |s| && s[|s| - |t|..] == t }

  predicate StartsWith(s: string, t: string) { |t| <= |s| && s[..|t|] == t }

  function Payload(files: Files): Files { map p | p in files && !IsMetadata(p) :: files[p] }

  // ----- Listings -----

  ghost predicate ListingOf(es: seq<Entry>, files: Files) {
    && DistinctPaths(es)
    && (forall k :: 0 <= k < |es| ==> es[k].path in files && files[es[k].path] == es[k].data)
    && (forall p :: p in files ==> Entry(p, files[p]) in es)
  }

  method ListFiles(files: Files) returns (es: seq<Entry>)
    ensures ListingOf(es, files)
  {
    es := [];
    var left := files.Keys;
    while left != {}
      invariant left <= files.Keys
      invariant DistinctPaths(es)
      invariant forall k :: 0 <= k < |es| ==> es[k].path in files.Keys - left && files[es[k].path] == es[k].data
      invariant forall p :: p in files.Keys - left ==> Entry(p, files[p]) in es
      decreases |left|
    {
      var p :| p in left;
      es := es + [Entry(p, files[p])];
      left := left - {p};
    }
  }

  lemma ListingExists(files: Files)
    ensures exists es :: ListingOf(es, files)
    decreases |files|
  {
    if files == map[] {
      assert ListingOf([], files);
    } else {
      var p :| p in files;
      var rest := files - {p};
      ListingExists(rest);
      var es :| ListingOf(es, rest);
      var es' := es + [Entry(p, files[p])];
      forall q | q in files ensures Entry(q, files[q]) in es' {
        if q != p { assert q in rest; }
      }
      assert ListingOf(es', files);
    }
  }

  lemma DistinctEntriesMultiset(a: seq<Entry>, b: seq<Entry>)
    requires DistinctPaths(a) && DistinctPaths(b)
    requires forall e :: e in a <==> e in b
    ensures multiset(a) == multiset(b)
  {
    forall e ensures multiset(a)[e] == multiset(b)[e] {
      if e in a {
        assert e in b;
        var i :| 0 <= i < |a| && a[i] == e;
        var j :| 0 <= j < |b| && b[j] == e;
        OnceInMultiset(a, i);
        OnceInMultiset(b, j);
      }
    }
  }

  // The preimage of a directory, whatever order it is listed in.
  ghost function DirPreimage(files: Files): string {
    ListingExists(files);
    var es :| ListingOf(es, files);
    Preimage(es)
  }

  lemma DirPreimageOfListing(es: seq<Entry>, files: Files)
    requires ListingOf(es, files)
    ensures DirPreimage(files) == Preimage(es)
  {
    ListingExists(files);
    var chosen :| ListingOf(chosen, files) && DirPreimage(files) == Preimage(chosen);
    forall e ensures e in es <==> e in chosen {
      if e in es { assert e == Entry(e.path, files[e.path]); }
      if e in chosen { assert e == Entry(e.path, files[e.path]); }
    }
    DistinctEntriesMultiset(es, chosen);
    PreimageIgnoresOrder(es, chosen);
  }

  ghost predicate SafePaths(files: Files) { forall p :: p in files ==> !HasNumeralSegment(p) }

  // Unique decoding, on directories.
  lemma DirPreimageInjective(a: Files, b: Files)
    requires SafePaths(a) && SafePaths(b)
    ensures DirPreimage(a) == DirPreimage(b) <==> a == b
  {
    if DirPreimage(a) == DirPreimage(b) {
      ListingExists(a);
      ListingExists(b);
      var x :| ListingOf(x, a);
      var y :| ListingOf(y, b);
      DirPreimageOfListing(x, a);
      DirPreimageOfListing(y, b);
      PreimageDeterminesFiles(x, y);
      ListingWithin(x, a, y, b);
      ListingWithin(y, b, x, a);
    }
  }

  lemma ListingWithin(x: seq<Entry>, a: Files, y: seq<Entry>, b: Files)
    requires ListingOf(x, a) && ListingOf(y, b) && multiset(x) == multiset(y)
    ensures forall p :: p in a ==> p in b && a[p] == b[p]
  {
    forall p | p in a ensures p in b && a[p] == b[p] {
      var e := Entry(p, a[p]);
      assert e in x;
      assert e in multiset(y);
      assert e in y;
    }
  }

  // ----- Sizes -----

  function TotalLength(es: seq<Entry>): nat {
    if es == [] then 0 else |Frame1(es[0])| + TotalLength(es[1..])
  }

  lemma {:induction false} FrameLength(es: seq<Entry>)
    ensures |Frame(es)| == TotalLength(es)
  {
    if es != [] { FrameLength(es[1..]); }
  }

  lemma {:induction false} InsertLength(e: Entry, es: seq<Entry>)
    ensures TotalLength(Insert(e, es)) == |Frame1(e)| + TotalLength(es)
  {
    if es == [] || Leq(e.path, es[0].path) {
      assert ([e] + es)[1..] == es;
    } else {
      InsertLength(e, es[1..]);
      assert ([es[0]] + Insert(e, es[1..]))[1..] == Insert(e, es[1..]);
    }
  }

  lemma {:induction false} PreimageLength(es: seq<Entry>)
    ensures TotalLength(Sort(es)) == TotalLength(es) == |Preimage(es)|
  {
    FrameLength(Sort(es));
    if es != [] {
      PreimageLength(es[1..]);
      InsertLength(es[0], Sort(es[1..]));
    }
  }

  lemma {:induction false} TotalLengthConcat(a: seq<Entry>, b: seq<Entry>)
    ensures TotalLength(a + b) == TotalLength(a) + TotalLength(b)
  {
    if a == [] {
      assert a + b == b;
    } else {
      assert (a + b)[1..] == a[1..] + b;
      TotalLengthConcat(a[1..], b);
    }
  }

  // A directory with more files has a longer preimage.
  lemma MoreFilesLongerPreimage(less: Files, extra: Files)
    requires less.Keys !! extra.Keys && extra != map[]
    ensures |DirPreimage(less + extra)| > |DirPreimage(less)|
  {
    ListingExists(less);
    ListingExists(extra);
    var x :| ListingOf(x, less);
    var y :| ListingOf(y, extra);
    ListingsConcat(x, less, y, extra);
    DirPreimageOfListing(x, less);
    DirPreimageOfListing(x + y, less + extra);
    PreimageLength(x);
    PreimageLength(x + y);
    TotalLengthConcat(x, y);
    var p :| p in extra;
    assert Entry(p, extra[p]) in y;
    assert TotalLength(y) > 0;
  }

  lemma ListingsConcat(x: seq<Entry>, less: Files, y: seq<Entry>, extra: Files)
    requires less.Keys !! extra.Keys && ListingOf(x, less) && ListingOf(y, extra)
    ensures ListingOf(x + y, less + extra)
  {
    var both := less + extra;
    forall k | 0 <= k < |x + y| ensures (x + y)[k].path in both && both[(x + y)[k].path] == (x + y)[k].data {
      if k < |x| { assert x[k].path in less.Keys; } else { assert y[k - |x|].path in extra.Keys; }
    }
    forall i, j | 0 <= i < j < |x + y| ensures (x + y)[i].path != (x + y)[j].path {
      if i < |x| <= j { assert x[i].path in less.Keys && y[j - |x|].path in extra.Keys; }
    }
    forall p | p in both ensures Entry(p, both[p]) in x + y {
      if p in extra { assert Entry(p, extra[p]) in y; } else { assert Entry(p, less[p]) in x; }
    }
  }

  // ----- Local filesystem store -----

  datatype Dir = Dir(files: Files, recorded: Option<string>)

  function LocalDir(files: Files, metadata: string, checksum: string): Dir {
    Dir(files[METADATA := metadata], Some(checksum))
  }

  class LocalArtifactStorage {
    const hash: string -> string
    var dirs: map<(string, string), Dir>

    constructor (hash: string -> string)
      ensures this.hash == hash && dirs == map[]
    {
      this.hash := hash;
      dirs := map[];
    }

    ghost predicate Verifies(d: Dir) {
      d.recorded == None || hash(DirPreimage(Payload(d.files))) == d.recorded.value
    }

    method FinalizeVersion(modelId: string, name: string, staged: Files, render: string -> string) returns (r: Outcome)
      modifies this
      ensures (modelId, name) in old(dirs) ==> r == AlreadyExists && dirs == old(dirs)
      ensures (modelId, name) !in old(dirs) ==>
                && r == Stored(hash(DirPreimage(Payload(staged))))
                && dirs == old(dirs)[(modelId, name) := LocalDir(staged, render(r.checksum), r.checksum)]
    {
      if (modelId, name) in dirs { return AlreadyExists; }
      var listing := ListFiles(Payload(staged));
      DirPreimageOfListing(listing, Payload(staged));
      var checksum := ComputeChecksumFromBytes(hash, listing);
      dirs := dirs[(modelId, name) := LocalDir(staged, render(checksum), checksum)];
      r := Stored(checksum);
    }

    method VerifyChecksum(modelId: string, name: string) returns (ok: bool)
      requires (modelId, name) in dirs
      ensures ok <==> Verifies(dirs[(modelId, name)])
      ensures var d := dirs[(modelId, name)];
              ok <==> (d.recorded.Some? ==> hash(DirPreimage(Payload(d.files))) == d.recorded.value)
    {
      var d := dirs[(modelId, name)];
      if d.recorded == None { return true; }
      var listing := ListFiles(Payload(d.files));
      DirPreimageOfListing(listing, Payload(d.files));
      var checksum := ComputeChecksumFromBytes(hash, listing);
      ok := checksum == d.recorded.value;
    }

    // The local store always verifies what it stored, whatever the payload files are called.
    method FinalizeThenVerify(modelId: string, name: string, staged: Files, render: string -> string)
      returns (r: Outcome, ok: bool)
      modifies this
      ensures r.Stored? ==> ok
      ensures r.Stored? <==> (modelId, name) !in old(dirs)
    {
      r := FinalizeVersion(modelId, name, staged, render);
      ok := false;
      if r.Stored? {
        MetadataNotPayload(staged, render(r.checksum));
        ok := VerifyChecksum(modelId, name);
      }
    }
  }

  lemma MetadataNotPayload(staged: Files, metadata: string)
    ensures Payload(staged[METADATA := metadata]) == Payload(staged)
  {
  }

  // Two different texts with one hash.
  predicate Collision(hash: string -> string, x: string, y: string) { x != y && hash(x) == hash(y) }

  // A stored version keeps verifying exactly as long as its payload is unchanged - or the preimages of
  // the two payloads are two different texts with one hash.
  lemma TamperingDetected(hash: string -> string, staged: Files, now: Files)
    requires SafePaths(Payload(staged)) && SafePaths(Payload(now))
    ensures hash(DirPreimage(Payload(now))) == hash(DirPreimage(Payload(staged)))
            <==> || Payload(now) == Payload(staged)
                 || Collision(hash, DirPreimage(Payload(now)), DirPreimage(Payload(staged)))
  {
    DirPreimageInjective(Payload(now), Payload(staged));
  }

  // ----- Object store -----

  // The objects under a prefix that `verify_checksum` hashes, by relative path.
  function Under(objects: Files, prefix: string): (u: Files)
    ensures forall p :: p in u <==> p != "" && prefix + p in objects && !EndsWith(prefix + p, "/" + METADATA)
    ensures forall p :: p in u ==> u[p] == objects[prefix + p]
  {
    Prefixes(prefix);
    var rels := set k | k in objects && StartsWith(k, prefix) :: k[|prefix|..];
    assert forall p :: prefix + p in objects ==> (prefix + p)[|prefix|..] in rels;
    map p | p in rels && p != "" && prefix + p in objects && !EndsWith(prefix + p, "/" + METADATA)
      :: objects[prefix + p]
  }

  lemma Prefixes(prefix: string)
    ensures forall p: string :: (prefix + p)[|prefix|..] == p && (prefix + p)[..|prefix|] == prefix
    ensures forall k: string :: StartsWith(k, prefix) ==> prefix + k[|prefix|..] == k
  {
  }

  // The objects an upload of `staged` under `prefix` creates.
  function Uploaded(staged: Files, prefix: string): (up: Files)
    ensures forall k :: k in up <==> StartsWith(k, prefix) && k[|prefix|..] in staged
    ensures forall k :: k in up ==> StartsWith(k, prefix) && k[|prefix|..] in staged && up[k] == staged[k[|prefix|..]]
  {
    Prefixes(prefix);
    var keys := set p | p in staged :: prefix + p;
    assert forall k :: StartsWith(k, prefix) && k[|prefix|..] in staged ==> prefix + k[|prefix|..] in keys;
    map k | k in keys :: staged[k[|prefix|..]]
  }

  class MinioArtifactStorage {
    const hash: string -> string
    const parse: string -> Option<string>
    var objects: Files

    constructor (hash: string -> string, parse: string -> Option<string>)
      ensures this.hash == hash && this.parse == parse && objects == map[]
    {
      this.hash := hash;
      this.parse := parse;
      objects := map[];
    }

    ghost predicate Verifies(objects: Files, prefix: string) {
      var key := prefix + METADATA;
      key !in objects || parse(objects[key]) == None
      || hash(DirPreimage(Under(objects, prefix))) == parse(objects[key]).value
    }

    method PutAll(prefix: string, staged: Files, listing: seq<Entry>)
      requires ListingOf(listing, staged)
      modifies this
      ensures objects == old(objects) + Uploaded(staged, prefix)
    {
      var i := 0;
      while i < |listing|
        invariant 0 <= i <= |listing|
        invariant objects == Puts(old(objects), listing[..i], prefix)
      {
        assert listing[..i + 1][..i] == listing[..i];
        objects := objects[prefix + listing[i].path := listing[i].data];
        i := i + 1;
      }
      assert listing[..i] == listing;
      PutsAreUploads(old(objects), listing, prefix);
      FilesOfListing(listing, staged);
    }

    method FinalizeVersion(prefix: string, staged: Files, render: string -> string) returns (r: Outcome)
      modifies this
      ensures r.AlreadyExists? <==> exists k :: k in old(objects) && StartsWith(k, prefix)
      ensures r.AlreadyExists? ==> objects == old(objects)
      ensures r.Stored? ==>
                && r.checksum == hash(DirPreimage(staged))
                && objects == old(objects) + Uploaded(staged, prefix) + map[prefix + METADATA := render(r.checksum)]
    {
      if k :| k in objects && StartsWith(k, prefix) { return AlreadyExists; }
      var listing := ListFiles(staged);
      DirPreimageOfListing(listing, staged);
      PutAll(prefix, staged, listing);
      var checksum := ComputeChecksumFromBytes(hash, listing);
      objects := objects[prefix + METADATA := render(checksum)];
      r := Stored(checksum);
    }

    method VerifyChecksum(prefix: string) returns (ok: bool)
      ensures ok <==> Verifies(objects, prefix)
      ensures var key := prefix + METADATA;
              ok <==> (key in objects && parse(objects[key]).Some? ==>
                         hash(DirPreimage(Under(objects, prefix))) == parse(objects[key]).value)
    {
      var key := prefix + METADATA;
      if key !in objects { return true; }
      var recorded := parse(objects[key]);
      if recorded == None { return true; }
      var listing := ListFiles(Under(objects, prefix));
      DirPreimageOfListing(listing, Under(objects, prefix));
      var checksum := ComputeChecksumFromBytes(hash, listing);
      ok := checksum == recorded.value;
    }

    // A finalized version verifies exactly when no payload file is called metadata.json, as finalize
    // hashed the file and verify skips it - or what the two hashed are different texts with one hash.
    method FinalizeThenVerify(prefix: string, staged: Files, render: string -> string) returns (r: Outcome, ok: bool)
      requires EndsWith(prefix, "/")
      requires forall p :: p in staged ==> p != ""
      requires forall c :: parse(render(c)) == Some(c)
      modifies this
      ensures r.Stored? ==>
                (ok <==> || (forall p :: p in staged ==> !IsMetadata(p))
                         || Collision(hash, DirPreimage(Payload(staged)), DirPreimage(staged)))
      ensures forall k :: k in old(objects) ==> k in objects && objects[k] == old(objects)[k]
    {
      r := FinalizeVersion(prefix, staged, render);
      ok := false;
      if r.Stored? {
        UnderUploaded(old(objects), prefix, staged, render(r.checksum), objects);
        assert prefix + METADATA in objects && objects[prefix + METADATA] == render(r.checksum);
        ok := VerifyChecksum(prefix);
        assert ok <==> hash(DirPreimage(Payload(staged))) == hash(DirPreimage(staged));
        PayloadPreimage(staged);
      }
    }
  }

  function FilesOf(es: seq<Entry>): Files {
    if es == [] then map[] else FilesOf(es[..|es| - 1])[es[|es| - 1].path := es[|es| - 1].data]
  }

  lemma {:induction false} FilesOfEntries(es: seq<Entry>)
    requires DistinctPaths(es)
    ensures forall p :: p in FilesOf(es) <==> exists k :: 0 <= k < |es| && es[k].path == p
    ensures forall k :: 0 <= k < |es| ==> FilesOf(es)[es[k].path] == es[k].data
  {
    if es != [] { FilesOfEntries(es[..|es| - 1]); }
  }

  lemma FilesOfListing(es: seq<Entry>, files: Files)
    requires ListingOf(es, files)
    ensures FilesOf(es) == files
  {
    FilesOfEntries(es);
    forall p | p in files ensures p in FilesOf(es) { assert Entry(p, files[p]) in es; }
  }

  // One put after another.
  function Puts(before: Files, es: seq<Entry>, prefix: string): Files {
    if es == [] then before else Puts(before, es[..|es| - 1], prefix)[prefix + es[|es| - 1].path := es[|es| - 1].data]
  }

  lemma {:induction false} PutsAreUploads(before: Files, es: seq<Entry>, prefix: string)
    ensures Puts(before, es, prefix) == before + Uploaded(FilesOf(es), prefix)
  {
    if es != [] {
      var done, e := es[..|es| - 1], es[|es| - 1];
      PutsAreUploads(before, done, prefix);
      UploadOne(FilesOf(done), prefix, e.path, e.data);
      PutLast(before, Uploaded(FilesOf(done), prefix), prefix + e.path, e.data);
    }
  }

  lemma PutLast(before: Files, up: Files, key: string, data: string)
    ensures (before + up)[key := data] == before + up[key := data]
  {
  }

  lemma UploadOne(files: Files, prefix: string, p: string, data: string)
    ensures Uploaded(files[p := data], prefix) == Uploaded(files, prefix)[prefix + p := data]
  {
    var a, b := Uploaded(files[p := data], prefix), Uploaded(files, prefix)[prefix + p := data];
    forall k ensures (k in a <==> k in b) && (k in b ==> a[k] == b[k]) {
      OneUploaded(files, prefix, p, data, k);
    }
    SameFiles(a, b);
  }

  lemma OneUploaded(files: Files, prefix: string, p: string, data: string, k: string)
    ensures k in Uploaded(files[p := data], prefix) <==> k == prefix + p || k in Uploaded(files, prefix)
    ensures k == prefix + p ==> Uploaded(files[p := data], prefix)[k] == data
    ensures k != prefix + p && k in Uploaded(files, prefix) ==>
              Uploaded(files[p := data], prefix)[k] == Uploaded(files, prefix)[k]
  {
    Prefixes(prefix);
    assert StartsWith(k, prefix) && k[|prefix|..] == p <==> k == prefix + p;
  }

  lemma UnderUploaded(before: Files, prefix: string, staged: Files, metadata: string, after: Files)
    requires EndsWith(prefix, "/")
    requires forall k :: k in before ==> !StartsWith(k, prefix)
    requires forall p :: p in staged ==> p != ""
    requires after == before + Uploaded(staged, prefix) + map[prefix + METADATA := metadata]
    ensures Under(after, prefix) == Payload(staged)
    ensures forall k :: k in before ==> k in after && after[k] == before[k]
  {
    forall p
      ensures p in Under(after, prefix) <==> p in Payload(staged)
      ensures p in Payload(staged) ==> Under(after, prefix)[p] == staged[p]
    {
      OneUnder(before, prefix, staged, metadata, after, p);
    }
    SameFiles(Under(after, prefix), Payload(staged));
    OthersStay(before, prefix, staged, metadata, after);
  }

  lemma SameFiles(a: Files, b: Files)
    requires forall p :: (p in a <==> p in b) && (p in b ==> a[p] == b[p])
    ensures a == b
  {
  }

  lemma OthersStay(before: Files, prefix: string, staged: Files, metadata: string, after: Files)
    requires forall k :: k in before ==> !StartsWith(k, prefix)
    requires after == before + Uploaded(staged, prefix) + map[prefix + METADATA := metadata]
    ensures forall k :: k in before ==> k in after && after[k] == before[k]
  {
    assert StartsWith(prefix + METADATA, prefix);
  }

  lemma OneUnder(before: Files, prefix: string, staged: Files, metadata: string, after: Files, p: string)
    requires EndsWith(prefix, "/")
    requires forall k :: k in before ==> !StartsWith(k, prefix)
    requires forall q :: q in staged ==> q != ""
    requires after == before + Uploaded(staged, prefix) + map[prefix + METADATA := metadata]
    ensures p in Under(after, prefix) <==> p in Payload(staged)
    ensures p in Payload(staged) ==> Under(after, prefix)[p] == staged[p]
  {
    var k := prefix + p;
    SkippedExactly(prefix, p);
    assert StartsWith(k, prefix) && k[|prefix|..] == p;
    assert (prefix + METADATA)[|prefix|..] == METADATA;
    assert k !in before;
  }

  // Under a prefix that ends in '/', `key.endswith("/metadata.json")` is `name == "metadata.json"`.
  lemma SkippedExactly(prefix: string, p: string)
    requires EndsWith(prefix, "/")
    ensures EndsWith(prefix + p, "/" + METADATA) <==> IsMetadata(p)
  {
    var k := prefix + p;
    var t := "/" + METADATA;
    assert prefix[|prefix| - 1] == '/';
    if |p| >= |t| {
      assert k[|k| - |t|..] == p[|p| - |t|..];
    } else if |p| == |METADATA| {
      assert k[|k| - |t|..] == [prefix[|prefix| - 1]] + p;
      assert t[1..] == METADATA;
      assert ([prefix[|prefix| - 1]] + p)[1..] == p;
    } else if |k| >= |t| {
      SlashInside(prefix, p, |t|);
      assert forall i :: 1 <= i < |t| ==> t[i] != '/';
    }
  }

  // The last n characters reach past the prefix's slash.
  lemma SlashInside(prefix: string, p: string, n: nat)
    requires prefix != "" && prefix[|prefix| - 1] == '/' && |p| < n <= |prefix| + |p|
    ensures (prefix + p)[|prefix| + |p| - n..][n - |p| - 1] == '/'
  {
  }

  lemma PayloadPreimage(staged: Files)
    ensures DirPreimage(Payload(staged)) == DirPreimage(staged) <==> forall p :: p in staged ==> !IsMetadata(p)
  {
    if forall p :: p in staged ==> !IsMetadata(p) {
      assert Payload(staged) == staged;
    } else {
      var extra := staged - Payload(staged).Keys;
      assert staged == Payload(staged) + extra;
      var p :| p in staged && IsMetadata(p);
      assert p in extra;
      MoreFilesLongerPreimage(Payload(staged), extra);
    }
  }
}
