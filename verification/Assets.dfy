/** Content-addressed assets: index rows, blob files, the links of programs to assets,
    and the garbage collector. */
module Assets {
  import opened Common
  import Program
  import Store

  type Pid = Program.Pid
  type Hash = nat

  /** A file extension as the index stores it. */
  datatype Ext = NoExt | Ext(text: string)

  const TMP := Ext("tmp")

  /** The blob file of a hash; an empty extension leaves no trace in the name. */
  datatype Path = Path(hash: Hash, ext: Ext)

  function PathOf(h: Hash, ext: Ext): Path {
    Path(h, if ext == Ext("") then NoExt else ext)
  }

  /** The database tables and the files below the assets directory. `refs` are the
      template references inside each stored program. */
  datatype State = State(
    rows: Store.Rows,
    refs: map<Pid, seq<Hash>>,
    links: set<(Pid, Hash)>,
    assets: map<Hash, Ext>,
    blobs: map<Path, Bytes>)

  type Sha = Bytes -> Hash

  // ----- Storing and loading -----

  /** Write through a temporary sibling, which the rename consumes. */
  function AtomicWrite(blobs: map<Path, Bytes>, path: Path, bytes: Bytes): map<Path, Bytes> {
    (blobs - {Path(path.hash, TMP)})[path := bytes]
  }

  function Put(s: State, sha: Sha, bytes: Bytes, ext: Ext): State {
    var h := sha(bytes);
    var path := PathOf(h, ext);
    s.(blobs := if path in s.blobs then s.blobs else AtomicWrite(s.blobs, path, bytes),
       assets := if h in s.assets then s.assets else s.assets[h := ext])
  }

  /** The extension comes from the index row, if there is one. */
  function GetAsset(s: State, h: Hash): Option<Bytes> {
    var path := PathOf(h, if h in s.assets then s.assets[h] else NoExt);
    if path in s.blobs then Some(s.blobs[path]) else None
  }

  // ----- Materialising the images of a program -----

  datatype Image = Ref(hash: Hash) | File(absolute: bool, name: string)

  /** Where image files come from: a base directory, if given, and what reading a file
      yields (contents and lower-case extension). */
  datatype Disk = Disk(hasBase: bool, read: Image -> Option<(Bytes, Ext)>)

  datatype MaterializeError = MissingBaseDir(image: Image) | Io(image: Image) | UnknownAsset(hash: Hash)

  datatype Materialized = Materialized(hashes: seq<Hash>, bytes: map<Hash, Bytes>) {
    function Insert(h: Hash, b: Bytes): Materialized {
      Materialized(if h in hashes then hashes else hashes + [h], if h in bytes then bytes else bytes[h := b])
    }
  }

  const Nothing := Materialized([], map[])

  /** One image: its hash and bytes, and the store afterwards. */
  function One(s: State, sha: Sha, disk: Disk, image: Image): (State, Result<(Hash, Bytes), MaterializeError>) {
    match image
    case Ref(h) =>
      (match GetAsset(s, h)
       case None => (s, Err(UnknownAsset(h)))
       case Some(b) => (s, Ok((h, b))))
    case File(absolute, _) =>
      if !absolute && !disk.hasBase then (s, Err(MissingBaseDir(image)))
      else
        match disk.read(image)
        case None => (s, Err(Io(image)))
        case Some((b, ext)) => (Put(s, sha, b, ext), Ok((sha(b), b)))
  }

  /** All images from the `i`-th on, rewriting each to its hash; the first failure stops. */
  function All(s: State, sha: Sha, disk: Disk, images: seq<Image>, i: nat, out: Materialized)
    : (State, seq<Image>, Result<Materialized, MaterializeError>)
    requires i <= |images|
    decreases |images| - i
  {
    if i == |images| then (s, images, Ok(out))
    else
      var (s', r) := One(s, sha, disk, images[i]);
      match r
      case Err(e) => (s', images, Err(e))
      case Ok((h, b)) => All(s', sha, disk, images[i := Ref(h)], i + 1, out.Insert(h, b))
  }

  datatype SubmitError = Materialize(error: MaterializeError) | Duplicate

  function HashesOf(images: seq<Image>): (hs: seq<Hash>)
    ensures |hs| == |images|
  {
    seq(|images|, i requires 0 <= i < |images| => if images[i].Ref? then images[i].hash else 0)
  }

  function Submit(s: State, sha: Sha, disk: Disk, id: Pid,
                  images: seq<Image>): (State, Result<Materialized, SubmitError>) {
    var (s', images', r) := All(s, sha, disk, images, 0, Nothing);
    match r
    case Err(e) => (s', Err(Materialize(e)))
    case Ok(out) =>
      if id in s'.rows then (s', Err(Duplicate))
      else (Linked(s'.(rows := s'.rows[id := Store.NewRow], refs := s'.refs[id := HashesOf(images')]), id, out.hashes), Ok(out))
  }

  function Linked(s: State, id: Pid, hashes: seq<Hash>): State {
    s.(links := s.links + (set h | h in hashes :: (id, h)))
  }

  // ----- Garbage collection -----

  function Referenced(links: set<(Pid, Hash)>): set<Hash> {
    set l | l in links :: l.1
  }

  /** Old terminal programs go, and their links with them. */
  function GcPrograms(s: State, cutoff: int): State {
    var keep := set id | id in s.rows && !Store.Expired(s.rows[id], cutoff);
    s.(rows := map id | id in keep :: s.rows[id],
       refs := map id | id in s.refs && id in keep :: s.refs[id],
       links := set l | l in s.links && l.0 in keep)
  }

  function Unreferenced(s: State): set<Hash> {
    s.assets.Keys - Referenced(s.links)
  }

  /** Unreferenced index rows go, each with the blob its extension names. */
  function GcAssets(s: State): State {
    s.(blobs := s.blobs - (set h | h in Unreferenced(s) :: PathOf(h, s.assets[h])), assets := s.assets - Unreferenced(s))
  }

  /** Blobs whose hash has no row go. */
  function GcOrphans(s: State): State {
    s.(blobs := map p | p in s.blobs && p.hash in s.assets :: s.blobs[p])
  }

  function GcAll(s: State, cutoff: int): State {
    GcOrphans(GcAssets(GcPrograms(s, cutoff)))
  }

  // ----- Integrity -----

  /** Every index row names a blob that exists. */
  ghost predicate RowsHaveBlobs(s: State) {
    forall h :: h in s.assets ==> PathOf(h, s.assets[h]) in s.blobs
  }

  /** Every blob has a row and hashes to its name. */
  ghost predicate BlobsHaveRows(s: State, sha: Sha) {
    forall p :: p in s.blobs ==> p.hash in s.assets && sha(s.blobs[p]) == p.hash
  }

  /** Links come from stored programs and lead to rows; references are linked. */
  ghost predicate LinksHold(s: State) {
    && s.refs.Keys == s.rows.Keys
    && (forall l :: l in s.links ==> l.0 in s.rows && l.1 in s.assets)
    && (forall id, h :: id in s.refs && h in s.refs[id] ==> (id, h) in s.links)
  }

  ghost predicate Intact(s: State, sha: Sha) {
    RowsHaveBlobs(s) && BlobsHaveRows(s, sha) && LinksHold(s)
  }

  /** No row is filed under the extension that temporary files use. */
  ghost predicate NoTemporary(s: State) {
    forall h :: h in s.assets ==> s.assets[h] != TMP
  }

  ghost predicate NoTemporaryFiles(disk: Disk) {
    forall image :: disk.read(image).Some? ==> disk.read(image).value.1 != TMP
  }

  // ----- Storing keeps integrity, except for one extension -----

  /** Storing the same bytes again under another extension destroys the blob of a row
      filed under the temporary extension. */
  predicate Clobbers(s: State, sha: Sha, bytes: Bytes, ext: Ext) {
    var h := sha(bytes);
    h in s.assets && s.assets[h] == TMP && PathOf(h, ext) !in s.blobs
  }

  /** Storing keeps every row loadable exactly when it does not do that. */
  lemma PutKeepsBlobs(s: State, sha: Sha, bytes: Bytes, ext: Ext)
    requires RowsHaveBlobs(s)
    ensures RowsHaveBlobs(Put(s, sha, bytes, ext)) <==> !Clobbers(s, sha, bytes, ext)
  {
    var h, s' := sha(bytes), Put(s, sha, bytes, ext);
    if Clobbers(s, sha, bytes, ext) {
      assert PathOf(h, s.assets[h]) == Path(h, TMP) && Path(h, TMP) !in s'.blobs;
    } else {
      forall g | g in s'.assets ensures PathOf(g, s'.assets[g]) in s'.blobs {
        if g in s.assets { assert PathOf(g, s.assets[g]) in s.blobs; }
      }
    }
  }

  lemma PutKeepsRest(s: State, sha: Sha, bytes: Bytes, ext: Ext)
    requires BlobsHaveRows(s, sha) && LinksHold(s)
    ensures var s' := Put(s, sha, bytes, ext); BlobsHaveRows(s', sha) && LinksHold(s') && sha(bytes) in s'.assets
  {
  }

  /** The same bytes as x.tmp and as x.png. */
  ghost function TwoFiles(bytes: Bytes, a: Image, b: Image): Disk {
    Disk(false, image =>
      if image == a then Some((bytes, TMP)) else if image == b then Some((bytes, Ext("png"))) else None)
  }

  /** The clobbering in full: stored as x.tmp and linked, then stored again as x.png, the
      asset can no longer be loaded. */
  lemma TemporaryExtensionLosesAsset(sha: Sha, bytes: Bytes, a: Image, b: Image)
    requires a.File? && b.File? && a.absolute && b.absolute && a != b
    ensures var empty := State(map[], map[], {}, map[], map[]);
            var disk := TwoFiles(bytes, a, b);
            var (s1, _) := Submit(empty, sha, disk, 1, [a]);
            var (s2, _) := Submit(s1, sha, disk, 2, [b]);
            && 1 in s2.rows && (1, sha(bytes)) in s2.links
            && One(s2, sha, disk, Ref(sha(bytes))).1 == Err(UnknownAsset(sha(bytes)))
  {
    var empty := State(map[], map[], {}, map[], map[]);
    var disk := TwoFiles(bytes, a, b);
    var h := sha(bytes);
    SubmitOneFile(empty, sha, disk, 1, a);
    var (s1, _) := Submit(empty, sha, disk, 1, [a]);
    SubmitOneFile(s1, sha, disk, 2, b);
    assert TMP.text[0] != "png"[0];
    assert Path(h, TMP) != Path(h, Ext("png"));
  }

  lemma SubmitOneFile(s: State, sha: Sha, disk: Disk, id: Pid, image: Image)
    requires image.File? && image.absolute && disk.read(image).Some? && id !in s.rows
    ensures var (b, ext) := disk.read(image).value; var s' := Put(s, sha, b, ext);
            Submit(s, sha, disk, id, [image]).0 ==
            s'.(rows := s'.rows[id := Store.NewRow], refs := s'.refs[id := [sha(b)]], links := s'.links + {(id, sha(b))})
  {
    var (b, ext) := disk.read(image).value;
    var s' := Put(s, sha, b, ext);
    assert [image][0 := Ref(sha(b))] == [Ref(sha(b))];
    assert Nothing.Insert(sha(b), b).hashes == [sha(b)];
    assert All(s', sha, disk, [Ref(sha(b))], 1, Nothing.Insert(sha(b), b))
           == (s', [Ref(sha(b))], Ok(Nothing.Insert(sha(b), b)));
    assert HashesOf([Ref(sha(b))]) == [sha(b)];
    assert (set h | h in [sha(b)] :: (id, h)) == {(id, sha(b))};
  }

  // ----- Materialising and submitting keep integrity -----

  /** The index only grows; programs and links are left alone. */
  ghost predicate OnlyStores(s: State, s': State) {
    && s'.rows == s.rows && s'.refs == s.refs && s'.links == s.links
    && forall h :: h in s.assets ==> h in s'.assets
  }

  /** What materialising one image keeps even where it clobbers. */
  lemma OneCollects(s: State, sha: Sha, disk: Disk, image: Image)
    requires BlobsHaveRows(s, sha) && LinksHold(s)
    ensures var (s', r) := One(s, sha, disk, image);
            && BlobsHaveRows(s', sha) && LinksHold(s') && OnlyStores(s, s')
            && (r.Ok? ==> r.value.0 in s'.assets && sha(r.value.1) == r.value.0)
  {
    if image.File? && (image.absolute || disk.hasBase) && disk.read(image).Some? {
      PutKeepsRest(s, sha, disk.read(image).value.0, disk.read(image).value.1);
    }
  }

  /** Materialising this image stores bytes that clobber. */
  predicate OneClobbers(s: State, sha: Sha, disk: Disk, image: Image) {
    && image.File? && (image.absolute || disk.hasBase) && disk.read(image).Some?
    && Clobbers(s, sha, disk.read(image).value.0, disk.read(image).value.1)
  }

  lemma OneKeeps(s: State, sha: Sha, disk: Disk, image: Image)
    requires Intact(s, sha)
    ensures Intact(One(s, sha, disk, image).0, sha) <==> !OneClobbers(s, sha, disk, image)
  {
    OneCollects(s, sha, disk, image);
    if image.File? && (image.absolute || disk.hasBase) && disk.read(image).Some? {
      PutKeepsBlobs(s, sha, disk.read(image).value.0, disk.read(image).value.1);
    }
  }

  /** One of the first `i` images refers to `h`. */
  ghost predicate Mentions(images: seq<Image>, i: nat, h: Hash)
    requires i <= |images|
  {
    exists k :: 0 <= k < i && images[k] == Ref(h)
  }

  /** Exactly the references so far were collected, once each, with bytes that hash to them;
      and they are stored. */
  ghost predicate Collected(s: State, sha: Sha, images: seq<Image>, i: nat, out: Materialized)
    requires i <= |images|
  {
    && (forall k :: 0 <= k < i ==> images[k].Ref?)
    && (forall h :: h in out.hashes <==> Mentions(images, i, h))
    && (forall j, k :: 0 <= j < k < |out.hashes| ==> out.hashes[j] != out.hashes[k])
    && (forall h :: h in out.bytes <==> h in out.hashes)
    && (forall h :: h in out.hashes ==> h in s.assets)
    && (forall h :: h in out.bytes ==> sha(out.bytes[h]) == h)
  }

  lemma MentionsGrow(images: seq<Image>, i: nat, h: Hash, x: Hash)
    requires i < |images|
    ensures Mentions(images[i := Ref(h)], i + 1, x) <==> x == h || Mentions(images, i, x)
  {
    var images' := images[i := Ref(h)];
    if x == h { assert images'[i] == Ref(h); }
    if Mentions(images, i, x) {
      var k :| 0 <= k < i && images[k] == Ref(x);
      assert images'[k] == Ref(x);
    }
  }

  lemma CollectOne(s: State, s': State, sha: Sha, images: seq<Image>, i: nat, out: Materialized, h: Hash, b: Bytes)
    requires i < |images| && Collected(s, sha, images, i, out) && OnlyStores(s, s') && h in s'.assets && sha(b) == h
    ensures Collected(s', sha, images[i := Ref(h)], i + 1, out.Insert(h, b))
  {
    forall x ensures x in out.Insert(h, b).hashes <==> Mentions(images[i := Ref(h)], i + 1, x) { MentionsGrow(images, i, h, x); }
  }

  lemma {:induction false} AllCollects(s: State, sha: Sha, disk: Disk, images: seq<Image>, i: nat, out: Materialized)
    requires BlobsHaveRows(s, sha) && LinksHold(s) && i <= |images| && Collected(s, sha, images, i, out)
    ensures var (s', images', r) := All(s, sha, disk, images, i, out);
            && BlobsHaveRows(s', sha) && LinksHold(s') && OnlyStores(s, s') && |images'| == |images|
            && (r.Ok? ==> Collected(s', sha, images', |images|, r.value))
    decreases |images| - i
  {
    if i < |images| {
      OneCollects(s, sha, disk, images[i]);
      var (s', r) := One(s, sha, disk, images[i]);
      if r.Ok? {
        var (h, b) := r.value;
        CollectOne(s, s', sha, images, i, out, h, b);
        AllCollects(s', sha, disk, images[i := Ref(h)], i + 1, out.Insert(h, b));
      }
    }
  }

  /** Some image from the `i`-th on clobbers when its turn comes. */
  predicate AllClobber(s: State, sha: Sha, disk: Disk, images: seq<Image>, i: nat)
    requires i <= |images|
    decreases |images| - i
  {
    i < |images| &&
    var (s', r) := One(s, sha, disk, images[i]);
    OneClobbers(s, sha, disk, images[i]) || (r.Ok? && AllClobber(s', sha, disk, images[i := Ref(r.value.0)], i + 1))
  }

  /** Integrity before, between and after the images. */
  ghost predicate AllIntact(s: State, sha: Sha, disk: Disk, images: seq<Image>, i: nat)
    requires i <= |images|
    decreases |images| - i
  {
    Intact(s, sha) && (i < |images| ==>
      var (s', r) := One(s, sha, disk, images[i]);
      Intact(s', sha) && (r.Ok? ==> AllIntact(s', sha, disk, images[i := Ref(r.value.0)], i + 1)))
  }

  /** Whether it succeeds or stops half-way, materialising keeps integrity at every point
      exactly when no image clobbers. */
  lemma {:induction false} AllKeeps(s: State, sha: Sha, disk: Disk, images: seq<Image>, i: nat, out: Materialized)
    requires Intact(s, sha) && i <= |images|
    ensures AllIntact(s, sha, disk, images, i) <==> !AllClobber(s, sha, disk, images, i)
    ensures AllIntact(s, sha, disk, images, i) ==> Intact(All(s, sha, disk, images, i, out).0, sha)
    decreases |images| - i
  {
    if i < |images| {
      OneKeeps(s, sha, disk, images[i]);
      var (s', r) := One(s, sha, disk, images[i]);
      if r.Ok? && Intact(s', sha) {
        AllKeeps(s', sha, disk, images[i := Ref(r.value.0)], i + 1, out.Insert(r.value.0, r.value.1));
      }
    }
  }

  lemma SubmitKeeps(s: State, sha: Sha, disk: Disk, id: Pid, images: seq<Image>)
    requires Intact(s, sha)
    ensures var whole := AllIntact(s, sha, disk, images, 0) && Intact(Submit(s, sha, disk, id, images).0, sha);
            whole <==> !AllClobber(s, sha, disk, images, 0)
  {
    AllKeeps(s, sha, disk, images, 0, Nothing);
    AllCollects(s, sha, disk, images, 0, Nothing);
    var (s', images', r) := All(s, sha, disk, images, 0, Nothing);
    if Intact(s', sha) && r.Ok? && id !in s'.rows { AdmitKeeps(s', sha, id, images', r.value); }
  }

  lemma AdmitKeeps(s: State, sha: Sha, id: Pid, images: seq<Image>, out: Materialized)
    requires Intact(s, sha) && id !in s.rows && Collected(s, sha, images, |images|, out)
    ensures Intact(Linked(s.(rows := s.rows[id := Store.NewRow], refs := s.refs[id := HashesOf(images)]), id, out.hashes), sha)
  {
    var s' := Linked(s.(rows := s.rows[id := Store.NewRow], refs := s.refs[id := HashesOf(images)]), id, out.hashes);
    forall p, h | p in s'.refs && h in s'.refs[p] ensures (p, h) in s'.links {
      if p == id {
        var k :| 0 <= k < |images| && HashesOf(images)[k] == h;
        assert images[k] == Ref(h) && Mentions(images, |images|, h);
      } else {
        assert (p, h) in s.links;
      }
    }
  }

  /** What was collected is what the store holds. */
  ghost predicate Loads(s: State, out: Materialized) {
    forall h :: h in out.bytes ==> GetAsset(s, h) == Some(out.bytes[h])
  }

  /** A stored program can be materialised again from its own references: nothing is
      written, nothing is rewritten, and each reference yields the stored bytes. */
  lemma {:induction false} RematerializeFrom(s: State, sha: Sha, disk: Disk, images: seq<Image>, i: nat,
                                             out: Materialized)
    requires i <= |images| && forall k :: 0 <= k < |images| ==> images[k].Ref? && Loadable(s, sha, images[k].hash)
    requires Loads(s, out)
    ensures var (s', images', r) := All(s, sha, disk, images, i, out);
            s' == s && images' == images && r.Ok? && Loads(s, r.value)
    decreases |images| - i
  {
    if i < |images| {
      var h := images[i].hash;
      var b := GetAsset(s, h).value;
      assert Loadable(s, sha, h) && images[i := Ref(h)] == images;
      LoadsMore(s, out, h, b);
      RematerializeFrom(s, sha, disk, images, i + 1, out.Insert(h, b));
    }
  }

  ghost predicate Loadable(s: State, sha: Sha, h: Hash) {
    h in s.assets && GetAsset(s, h).Some? && sha(GetAsset(s, h).value) == h
  }

  lemma RowsAreLoadable(s: State, sha: Sha, h: Hash)
    requires Intact(s, sha) && h in s.assets
    ensures Loadable(s, sha, h)
  {
    assert PathOf(h, s.assets[h]) in s.blobs;
  }

  lemma LoadsMore(s: State, out: Materialized, h: Hash, b: Bytes)
    requires Loads(s, out) && GetAsset(s, h) == Some(b)
    ensures Loads(s, out.Insert(h, b))
  {
  }

  /** The answer names exactly the references, each once, and carries exactly their bytes. */
  ghost predicate Named(refs: seq<Hash>, out: Materialized) {
    && (forall h :: h in out.hashes <==> h in refs)
    && (forall j, k :: 0 <= j < k < |out.hashes| ==> out.hashes[j] != out.hashes[k])
    && (forall h :: h in out.bytes <==> h in refs)
  }

  /** ... as the store holds them. */
  ghost predicate Answers(s: State, refs: seq<Hash>, out: Materialized) {
    Named(refs, out) && forall h :: h in refs ==> GetAsset(s, h) == Some(out.bytes[h])
  }

  lemma CollectedIsNamed(s: State, sha: Sha, images: seq<Image>, out: Materialized)
    requires Collected(s, sha, images, |images|, out)
    ensures Named(HashesOf(images), out)
  {
    forall h ensures Mentions(images, |images|, h) <==> h in HashesOf(images) {
      if h in HashesOf(images) {
        var k :| 0 <= k < |images| && HashesOf(images)[k] == h;
        assert images[k] == Ref(h);
      }
      if Mentions(images, |images|, h) {
        var k :| 0 <= k < |images| && images[k] == Ref(h);
        assert HashesOf(images)[k] == h;
      }
    }
  }

  lemma RematerializeSucceeds(s: State, sha: Sha, disk: Disk, id: Pid, images: seq<Image>)
    requires Intact(s, sha) && id in s.rows
    requires (forall k :: 0 <= k < |images| ==> images[k].Ref?) && HashesOf(images) == s.refs[id]
    ensures var (s', images', r) := All(s, sha, disk, images, 0, Nothing);
            s' == s && images' == images && r.Ok? && Answers(s, HashesOf(images), r.value)
  {
    forall k | 0 <= k < |images| ensures Loadable(s, sha, images[k].hash) {
      assert HashesOf(images)[k] in s.refs[id];
      assert (id, images[k].hash) in s.links;
      RowsAreLoadable(s, sha, images[k].hash);
    }
    RematerializeFrom(s, sha, disk, images, 0, Nothing);
    AllCollects(s, sha, disk, images, 0, Nothing);
    CollectedIsNamed(s, sha, images, All(s, sha, disk, images, 0, Nothing).2.value);
  }

  // ----- What a submission answers -----

  /** Why an image cannot be materialised. */
  ghost predicate Unusable(disk: Disk, image: Image, e: MaterializeError) {
    match e
    case MissingBaseDir(i) => i == image && image.File? && !image.absolute && !disk.hasBase
    case Io(i) => i == image && image.File? && (image.absolute || disk.hasBase) && disk.read(image).None?
    case UnknownAsset(h) => image == Ref(h)
  }

  /** What a usable image becomes: a reference stays, a file becomes the hash of its
      contents. */
  ghost predicate Becomes(disk: Disk, sha: Sha, image: Image, h: Hash) {
    match image
    case Ref(g) => h == g
    case File(absolute, _) => (absolute || disk.hasBase) && disk.read(image).Some? && h == sha(disk.read(image).value.0)
  }

  lemma OneBecomes(s: State, sha: Sha, disk: Disk, image: Image)
    ensures match One(s, sha, disk, image).1
            case Err(e) => Unusable(disk, image, e)
            case Ok((h, _)) => Becomes(disk, sha, image, h)
  {
  }

  /** The images from the `i`-th on have become references, the others are as they were. */
  ghost predicate Rewrites(disk: Disk, sha: Sha, images: seq<Image>, i: nat, images': seq<Image>) {
    && |images'| == |images|
    && (forall k :: 0 <= k < i && k < |images| ==> images'[k] == images[k])
    && (forall k :: i <= k < |images| ==> images'[k].Ref? && Becomes(disk, sha, images[k], images'[k].hash))
  }

  lemma RewritesMore(disk: Disk, sha: Sha, images: seq<Image>, i: nat, h: Hash, images': seq<Image>)
    requires i < |images| && Becomes(disk, sha, images[i], h) && Rewrites(disk, sha, images[i := Ref(h)], i + 1, images')
    ensures Rewrites(disk, sha, images, i, images')
  {
    assert images'[i] == Ref(h);
  }

  /** Success rewrites every image; failure names the image it stopped at. */
  lemma {:induction false} AllRewrites(s: State, sha: Sha, disk: Disk, images: seq<Image>, i: nat, out: Materialized)
    requires i <= |images|
    ensures var (_, images', r) := All(s, sha, disk, images, i, out);
            && (r.Ok? ==> Rewrites(disk, sha, images, i, images'))
            && (r.Err? ==> exists k :: i <= k < |images| && Unusable(disk, images[k], r.error))
    decreases |images| - i
  {
    if i < |images| {
      OneBecomes(s, sha, disk, images[i]);
      var (s', r) := One(s, sha, disk, images[i]);
      if r.Ok? {
        var next := images[i := Ref(r.value.0)];
        AllRewrites(s', sha, disk, next, i + 1, out.Insert(r.value.0, r.value.1));
        var (_, images', r') := All(s', sha, disk, next, i + 1, out.Insert(r.value.0, r.value.1));
        if r'.Ok? {
          RewritesMore(disk, sha, images, i, r.value.0, images');
        } else {
          var k :| i + 1 <= k < |images| && Unusable(disk, next[k], r'.error);
          assert next[k] == images[k];
        }
      }
    }
  }

  ghost predicate NoCollision(sha: Sha) {
    forall x, y :: sha(x) == sha(y) ==> x == y
  }

  /** An accepted submission stores a reference for every image and answers with exactly
      those references and their bytes. Absent hash collisions the bytes are what was read
      from the file, or what is stored under the reference. */
  lemma SubmitAnswers(s: State, sha: Sha, disk: Disk, id: Pid, images: seq<Image>)
    requires BlobsHaveRows(s, sha) && LinksHold(s) && Submit(s, sha, disk, id, images).1.Ok?
    ensures var (s', r) := Submit(s, sha, disk, id, images); var out := r.value;
            && id in s'.refs && id in s'.rows && |s'.refs[id]| == |images| && Named(s'.refs[id], out)
            && (forall k :: 0 <= k < |images| ==> Becomes(disk, sha, images[k], s'.refs[id][k]))
            && (forall h :: (id, h) in s'.links <==> h in s'.refs[id])
            && (forall h :: h in out.bytes ==> sha(out.bytes[h]) == h)
    ensures var (s', r) := Submit(s, sha, disk, id, images); var out := r.value;
            NoCollision(sha) ==>
              && (forall k :: 0 <= k < |images| && images[k].File? ==>
                    out.bytes[s'.refs[id][k]] == disk.read(images[k]).value.0)
              && (forall k :: 0 <= k < |images| && images[k].Ref? && GetAsset(s', images[k].hash).Some? ==>
                    GetAsset(s', images[k].hash) == Some(out.bytes[images[k].hash]))
  {
    var (s', images', r) := All(s, sha, disk, images, 0, Nothing);
    AllCollects(s, sha, disk, images, 0, Nothing);
    AllRewrites(s, sha, disk, images, 0, Nothing);
    CollectedIsNamed(s', sha, images', r.value);
    var (after, answer) := Submit(s, sha, disk, id, images);
    var refs, out := after.refs[id], answer.value;
    assert forall h :: (id, h) !in s'.links;
    forall k | 0 <= k < |images| ensures refs[k] in out.bytes && sha(out.bytes[refs[k]]) == refs[k] { assert refs[k] in refs; }
    if NoCollision(sha) { SameContents(after, sha, disk, images, refs, out); }
  }

  lemma SameContents(s: State, sha: Sha, disk: Disk, images: seq<Image>, refs: seq<Hash>, out: Materialized)
    requires NoCollision(sha) && BlobsHaveRows(s, sha) && |refs| == |images|
    requires forall k :: 0 <= k < |images| ==> Becomes(disk, sha, images[k], refs[k])
    requires forall k :: 0 <= k < |images| ==> refs[k] in out.bytes && sha(out.bytes[refs[k]]) == refs[k]
    ensures forall k :: 0 <= k < |images| && images[k].File? ==>
      disk.read(images[k]).Some? && out.bytes[refs[k]] == disk.read(images[k]).value.0
    ensures forall k :: 0 <= k < |images| && images[k].Ref? && GetAsset(s, images[k].hash).Some? ==>
      images[k].hash in out.bytes && GetAsset(s, images[k].hash) == Some(out.bytes[images[k].hash])
  {
    forall k | 0 <= k < |images| && images[k].Ref? && GetAsset(s, images[k].hash).Some?
      ensures images[k].hash in out.bytes && GetAsset(s, images[k].hash) == Some(out.bytes[images[k].hash])
    {
      assert Becomes(disk, sha, images[k], refs[k]) && sha(GetAsset(s, images[k].hash).value) == images[k].hash;
    }
  }

  /** A submission is refused exactly when some image cannot be materialised or the id is
      taken, and then no program is added. */
  lemma SubmitRefuses(s: State, sha: Sha, disk: Disk, id: Pid, images: seq<Image>)
    requires Submit(s, sha, disk, id, images).1.Err?
    ensures var (s', r) := Submit(s, sha, disk, id, images);
            && s'.rows == s.rows && s'.refs == s.refs && s'.links == s.links
            && (r.error.Materialize? ==> exists k :: 0 <= k < |images| && Unusable(disk, images[k], r.error.error))
            && (r.error.Duplicate? ==> id in s.rows)
  {
    AllRewrites(s, sha, disk, images, 0, Nothing);
    AllAddsNothing(s, sha, disk, images, 0, Nothing);
  }

  lemma OneAddsNothing(s: State, sha: Sha, disk: Disk, image: Image)
    ensures var s' := One(s, sha, disk, image).0; s'.rows == s.rows && s'.refs == s.refs && s'.links == s.links
  {
  }

  lemma {:induction false} AllAddsNothing(s: State, sha: Sha, disk: Disk, images: seq<Image>, i: nat, out: Materialized)
    requires i <= |images|
    ensures var s' := All(s, sha, disk, images, i, out).0; s'.rows == s.rows && s'.refs == s.refs && s'.links == s.links
    decreases |images| - i
  {
    if i < |images| {
      var (s', r) := One(s, sha, disk, images[i]);
      OneAddsNothing(s, sha, disk, images[i]);
      if r.Ok? { AllAddsNothing(s', sha, disk, images[i := Ref(r.value.0)], i + 1, out.Insert(r.value.0, r.value.1)); }
    }
  }

  // ----- What the collector does -----

  lemma GcProgramsKeeps(s: State, sha: Sha, cutoff: int)
    requires Intact(s, sha)
    ensures Intact(GcPrograms(s, cutoff), sha)
  {
  }

  lemma GcAssetsKeeps(s: State)
    requires RowsHaveBlobs(s) && LinksHold(s)
    ensures RowsHaveBlobs(GcAssets(s)) && LinksHold(GcAssets(s))
  {
    var s' := GcAssets(s);
    forall h | h in s'.assets ensures PathOf(h, s'.assets[h]) in s'.blobs {
      assert PathOf(h, s.assets[h]) in s.blobs;
    }
    forall l | l in s'.links ensures l.1 in s'.assets { assert l.1 in Referenced(s.links); }
  }

  lemma GcAllKeeps(s: State, sha: Sha, cutoff: int)
    requires Intact(s, sha)
    ensures Intact(GcAll(s, cutoff), sha)
  {
    var s1 := GcPrograms(s, cutoff);
    GcProgramsKeeps(s, sha, cutoff);
    GcAssetsKeeps(s1);
    var s2 := GcAssets(s1);
    assert forall p :: p in s2.blobs ==> p in s1.blobs && s2.blobs[p] == s1.blobs[p];
  }

  /** The program is over, and was so before the cutoff. */
  ghost predicate Finished(row: Store.Row, cutoff: int) {
    && (row.state.Completed? || row.state.Failed? || row.state.Cancelled?)
    && row.finishedAt.Some? && row.finishedAt.value < cutoff
  }

  /** What a sweep leaves: exactly the programs that had not finished before the cutoff,
      their links, the rows they link to, and the blobs of those rows. */
  ghost predicate SweptFrom(s: State, s': State, cutoff: int) {
    && (forall id :: id in s'.rows <==> id in s.rows && !Finished(s.rows[id], cutoff))
    && (forall id :: id in s'.rows ==> s'.rows[id] == s.rows[id])
    && (forall id :: id in s'.refs <==> id in s.refs && id in s'.rows)
    && (forall id :: id in s'.refs ==> s'.refs[id] == s.refs[id])
    && (forall l :: l in s'.links <==> l in s.links && l.0 in s'.rows)
    && (forall h :: h in s'.assets <==> h in s.assets && exists id :: (id, h) in s'.links)
    && (forall h :: h in s'.assets ==> s'.assets[h] == s.assets[h])
    && (forall p :: p in s'.blobs <==> p in s.blobs && p.hash in s'.assets)
    && (forall p :: p in s'.blobs ==> s'.blobs[p] == s.blobs[p])
  }

  /** A sweep deletes exactly the programs that finished before the cutoff, and leaves no
      row without a program and no blob without a row. */
  lemma GcAllIsExact(s: State, cutoff: int)
    ensures SweptFrom(s, GcAll(s, cutoff), cutoff)
  {
    var s1 := GcPrograms(s, cutoff);
    var s2 := GcAssets(s1);
    forall h ensures h in s2.assets <==> h in s.assets && exists id :: (id, h) in s2.links {
      if h in Referenced(s1.links) {
        var l :| l in s1.links && l.1 == h;
        assert (l.0, h) in s2.links;
      }
    }
  }

  /** Sweeping twice is sweeping once. */
  lemma GcAllIsIdempotent(s: State, cutoff: int)
    ensures GcAll(GcAll(s, cutoff), cutoff) == GcAll(s, cutoff)
  {
    GcAllIsExact(s, cutoff);
    GcAllIsExact(GcAll(s, cutoff), cutoff);
    SweptTwice(s, GcAll(s, cutoff), GcAll(GcAll(s, cutoff), cutoff), cutoff);
  }

  lemma SweptTwice(s: State, s1: State, s2: State, cutoff: int)
    requires SweptFrom(s, s1, cutoff) && SweptFrom(s1, s2, cutoff)
    ensures s2 == s1
  {
    SameMap(s1.rows, s2.rows);
    SameMap(s1.refs, s2.refs);
    assert s2.links == s1.links;
    SameMap(s1.assets, s2.assets);
    SameMap(s1.blobs, s2.blobs);
  }

  lemma SameMap<K, V>(a: map<K, V>, b: map<K, V>)
    requires (forall k :: k in b <==> k in a) && forall k :: k in b ==> b[k] == a[k]
    ensures a == b
  {
  }

  // ----- Whole runs -----

  /** What happens to the store: submissions, updates of program rows of any kind,
      sweeps. */
  datatype Op = DoSubmit(disk: Disk, id: Pid, images: seq<Image>) | DoUpdate(update: Pid -> Store.Row) | DoGc(cutoff: int)

  function Apply(s: State, sha: Sha, op: Op): State {
    match op
    case DoSubmit(disk, id, images) => Submit(s, sha, disk, id, images).0
    case DoUpdate(update) => s.(rows := map id | id in s.rows :: update(id))
    case DoGc(cutoff) => GcAll(s, cutoff)
  }

  function Run(sha: Sha, ops: seq<Op>): State {
    if ops == [] then State(map[], map[], {}, map[], map[])
    else Apply(Run(sha, ops[..|ops| - 1]), sha, ops[|ops| - 1])
  }

  /** The operation stores bytes that clobber; only a submission can. */
  predicate OpClobbers(s: State, sha: Sha, op: Op) {
    op.DoSubmit? && AllClobber(s, sha, op.disk, op.images, 0)
  }

  /** Integrity before, during and after the operation. */
  ghost predicate OpIntact(s: State, sha: Sha, op: Op) {
    && Intact(s, sha) && Intact(Apply(s, sha, op), sha)
    && (op.DoSubmit? ==> AllIntact(s, sha, op.disk, op.images, 0))
  }

  lemma OpKeeps(s: State, sha: Sha, op: Op)
    requires Intact(s, sha)
    ensures OpIntact(s, sha, op) <==> !OpClobbers(s, sha, op)
  {
    match op
    case DoSubmit(disk, id, images) => SubmitKeeps(s, sha, disk, id, images);
    case DoUpdate(_) =>
    case DoGc(cutoff) => GcAllKeeps(s, sha, cutoff);
  }

  /** No submission of the run clobbers, in the state it finds. */
  predicate NeverClobbers(sha: Sha, ops: seq<Op>) {
    forall k :: 0 <= k < |ops| ==> !OpClobbers(Run(sha, ops[..k]), sha, ops[k])
  }

  ghost predicate IntactThroughout(sha: Sha, ops: seq<Op>) {
    forall k :: 0 <= k < |ops| ==> OpIntact(Run(sha, ops[..k]), sha, ops[k])
  }

  /** Over every run of submissions, row updates and sweeps in which no submission
      clobbers: every stored program's references are linked, have a row and a blob that
      hashes to the reference. */
  lemma {:induction false} AssetIntegrity(sha: Sha, ops: seq<Op>)
    requires NeverClobbers(sha, ops)
    ensures Intact(Run(sha, ops), sha)
  {
    if ops != [] {
      var n := |ops| - 1;
      var before := ops[..n];
      forall k | 0 <= k < n ensures !OpClobbers(Run(sha, before[..k]), sha, before[k]) { assert before[..k] == ops[..k]; }
      AssetIntegrity(sha, before);
      assert !OpClobbers(Run(sha, ops[..n]), sha, ops[n]);
      OpKeeps(Run(sha, before), sha, ops[n]);
    }
  }

  /** Integrity holds at every point of a run, inside submissions too, if and only if no
      submission clobbers. */
  lemma IntegrityIsExact(sha: Sha, ops: seq<Op>)
    ensures IntactThroughout(sha, ops) <==> NeverClobbers(sha, ops)
  {
    if IntactThroughout(sha, ops) {
      forall k | 0 <= k < |ops| ensures !OpClobbers(Run(sha, ops[..k]), sha, ops[k]) { OpKeeps(Run(sha, ops[..k]), sha, ops[k]); }
    }
    if NeverClobbers(sha, ops) {
      forall k | 0 <= k < |ops| ensures OpIntact(Run(sha, ops[..k]), sha, ops[k]) {
        forall j | 0 <= j < k ensures !OpClobbers(Run(sha, ops[..k][..j]), sha, ops[..k][j]) { assert ops[..k][..j] == ops[..j]; }
        AssetIntegrity(sha, ops[..k]);
        OpKeeps(Run(sha, ops[..k]), sha, ops[k]);
      }
    }
  }

  /** After any such run, every stored program reloads all its images. */
  lemma StoredProgramsReload(sha: Sha, ops: seq<Op>, id: Pid, disk: Disk, images: seq<Image>)
    requires NeverClobbers(sha, ops) && id in Run(sha, ops).rows && id in Run(sha, ops).refs
    requires (forall k :: 0 <= k < |images| ==> images[k].Ref?) && HashesOf(images) == Run(sha, ops).refs[id]
    ensures var s := Run(sha, ops); var (s', images', r) := All(s, sha, disk, images, 0, Nothing);
            s' == s && images' == images && r.Ok? && Answers(s, HashesOf(images), r.value)
  {
    AssetIntegrity(sha, ops);
    RematerializeSucceeds(Run(sha, ops), sha, disk, id, images);
  }

  // ----- Runs without the temporary extension -----

  ghost predicate PlainOps(ops: seq<Op>) {
    forall i :: 0 <= i < |ops| && ops[i].DoSubmit? ==> NoTemporaryFiles(ops[i].disk)
  }

  lemma {:induction false} PlainImages(s: State, sha: Sha, disk: Disk, images: seq<Image>, i: nat, out: Materialized)
    requires NoTemporary(s) && NoTemporaryFiles(disk) && i <= |images|
    ensures !AllClobber(s, sha, disk, images, i) && NoTemporary(All(s, sha, disk, images, i, out).0)
    decreases |images| - i
  {
    if i < |images| {
      var (s', r) := One(s, sha, disk, images[i]);
      assert NoTemporary(s');
      if r.Ok? { PlainImages(s', sha, disk, images[i := Ref(r.value.0)], i + 1, out.Insert(r.value.0, r.value.1)); }
    }
  }

  lemma {:induction false} PlainRun(sha: Sha, ops: seq<Op>)
    requires PlainOps(ops)
    ensures NoTemporary(Run(sha, ops))
  {
    if ops != [] {
      var before, op := ops[..|ops| - 1], ops[|ops| - 1];
      PlainRun(sha, before);
      match op
      case DoSubmit(disk, id, images) => PlainImages(Run(sha, before), sha, disk, images, 0, Nothing);
      case DoUpdate(_) =>
      case DoGc(cutoff) => GcAllIsExact(Run(sha, before), cutoff);
    }
  }

  /** A run in which no image file has the temporary extension never clobbers. */
  lemma PlainRunsNeverClobber(sha: Sha, ops: seq<Op>)
    requires PlainOps(ops)
    ensures NeverClobbers(sha, ops)
  {
    forall k | 0 <= k < |ops| ensures !OpClobbers(Run(sha, ops[..k]), sha, ops[k]) {
      PlainRun(sha, ops[..k]);
      if ops[k].DoSubmit? { PlainImages(Run(sha, ops[..k]), sha, ops[k].disk, ops[k].images, 0, Nothing); }
    }
  }
}
