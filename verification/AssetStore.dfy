/** The asset store as the object the daemon locks and updates. */
module AssetStore {
  import opened Common
  import opened Assets
  import Store

  ghost predicate Lists<T(!new)>(order: seq<T>, all: set<T>) {
    && (forall x :: x in order <==> x in all)
    && forall i, j :: 0 <= i < j < |order| ==> order[i] != order[j]
  }

  /** The elements of a set in some order, as a query or a directory walk yields them. */
  method ListOf<T(==, !new)>(all: set<T>) returns (order: seq<T>)
    ensures Lists(order, all)
  {
    var rest := all;
    order := [];
    while rest != {}
      invariant rest <= all && Lists(order, all - rest)
      decreases rest
    {
      var x :| x in rest;
      rest := rest - {x};
      order := order + [x];
    }
  }

  /** The blobs a sweep of orphans removes. */
  ghost function Orphans(s: State): set<Path> {
    set p | p in s.blobs && p.hash !in s.assets
  }

  ghost function OrphansIn(files: seq<Path>, assets: map<Hash, Ext>): set<Path> {
    set p | p in files && p.hash !in assets
  }

  lemma OrphansGrow(files: seq<Path>, assets: map<Hash, Ext>, i: nat, blobs: map<Path, Bytes>)
    requires i < |files| && forall i, j :: 0 <= i < j < |files| ==> files[i] != files[j]
    ensures var (gone, more) := (OrphansIn(files[..i], assets), OrphansIn(files[..i + 1], assets));
            if files[i].hash in assets then more == gone
            else |more| == |gone| + 1 && blobs - more == (blobs - gone) - {files[i]}
  {
    assert files[..i + 1] == files[..i] + [files[i]];
    if files[i].hash in assets {
      assert OrphansIn(files[..i + 1], assets) == OrphansIn(files[..i], assets);
    } else {
      assert OrphansIn(files[..i + 1], assets) == OrphansIn(files[..i], assets) + {files[i]};
    }
  }

  lemma OrphansGone(s: State, files: seq<Path>, blobs: map<Path, Bytes>)
    requires Lists(files, s.blobs.Keys) && blobs == s.blobs - OrphansIn(files, s.assets)
    ensures OrphansIn(files, s.assets) == Orphans(s) && blobs == GcOrphans(s).blobs
  {
  }

  lemma {:induction false} ListLength<T(!new)>(order: seq<T>, all: set<T>)
    requires Lists(order, all)
    ensures |order| == |all|
  {
    if order != [] {
      var n := |order| - 1;
      var rest := all - {order[n]};
      forall x ensures x in order[..n] <==> x in rest {
        assert x in order <==> x in order[..n] || x == order[n];
      }
      ListLength(order[..n], rest);
    }
  }

  datatype GcReport = GcReport(programs: nat, assets: nat, blobs: nat, orphans: nat)

  class Depot {
    const sha: Sha
    var rows: Store.Rows
    var refs: map<Pid, seq<Hash>>
    var links: set<(Pid, Hash)>
    var assets: map<Hash, Ext>
    var blobs: map<Path, Bytes>

    constructor (sha: Sha)
      ensures this.sha == sha && Now() == State(map[], map[], {}, map[], map[])
    {
      this.sha := sha;
      rows, refs, links, assets, blobs := map[], map[], {}, map[], map[];
    }

    ghost function Now(): State
      reads this
    {
      State(rows, refs, links, assets, blobs)
    }

    method PutAsset(bytes: Bytes, ext: Ext) returns (h: Hash, created: bool)
      modifies this
      ensures Now() == Put(old(Now()), sha, bytes, ext) && h == sha(bytes)
      ensures created <==> PathOf(h, ext) !in old(blobs)
    {
      h := sha(bytes);
      var path := PathOf(h, ext);
      created := path !in blobs;
      if created {
        var temporary := Path(path.hash, TMP);
        blobs := blobs[temporary := bytes];
        blobs := (blobs - {temporary})[path := bytes];
        assert blobs == AtomicWrite(old(blobs), path, bytes);
      }
      if h !in assets { assets := assets[h := ext]; }
    }

    method GetBytes(h: Hash) returns (r: Option<Bytes>)
      ensures r == GetAsset(Now(), h)
    {
      var ext := if h in assets then assets[h] else NoExt;
      var path := PathOf(h, ext);
      if path in blobs { r := Some(blobs[path]); } else { r := None; }
    }

    /** Idempotent; the foreign key refuses an unknown program. */
    method LinkProgramAsset(id: Pid, h: Hash) returns (ok: bool)
      modifies `links
      ensures ok <==> id in rows
      ensures links == if ok then old(links) + {(id, h)} else old(links)
    {
      ok := id in rows;
      if ok { links := links + {(id, h)}; }
    }

    method MaterializeImage(image: Image, disk: Disk) returns (r: Result<(Hash, Bytes), MaterializeError>)
      modifies this
      ensures (Now(), r) == One(old(Now()), sha, disk, image)
    {
      match image
      case Ref(h) =>
        var found := GetBytes(h);
        if found.None? { return Err(UnknownAsset(h)); }
        return Ok((h, found.value));
      case File(absolute, _) =>
        if !absolute && !disk.hasBase { return Err(MissingBaseDir(image)); }
        var file := disk.read(image);
        if file.None? { return Err(Io(image)); }
        var h, _ := PutAsset(file.value.0, file.value.1);
        return Ok((h, file.value.0));
    }

    /** Every image in turn, rewritten in place to its hash. */
    method MaterializeImages(images: array<Image>, disk: Disk) returns (r: Result<Materialized, MaterializeError>)
      modifies this, images
      ensures (Now(), images[..], r) == All(old(Now()), sha, disk, old(images[..]), 0, Nothing)
    {
      var out := Nothing;
      for i := 0 to images.Length
        invariant All(Now(), sha, disk, images[..], i, out) == All(old(Now()), sha, disk, old(images[..]), 0, Nothing)
      {
        var one := MaterializeAt(images, i, disk);
        if one.Err? { return Err(one.error); }
        out := out.Insert(one.value.0, one.value.1);
      }
      return Ok(out);
    }

    method MaterializeAt(images: array<Image>, i: nat, disk: Disk) returns (r: Result<(Hash, Bytes), MaterializeError>)
      requires i < images.Length
      modifies this, images
      ensures (Now(), r) == One(old(Now()), sha, disk, old(images[i]))
      ensures images[..] == if r.Ok? then old(images[..])[i := Ref(r.value.0)] else old(images[..])
    {
      r := MaterializeImage(images[i], disk);
      if r.Ok? { images[i] := Ref(r.value.0); }
    }

    method SubmitProgram(id: Pid, images: array<Image>, disk: Disk) returns (r: Result<Materialized, SubmitError>)
      modifies this, images
      ensures (Now(), r) == Submit(old(Now()), sha, disk, id, old(images[..]))
    {
      var m := MaterializeImages(images, disk);
      if m.Err? { return Err(Materialize(m.error)); }
      if id in rows { return Err(Duplicate); }
      rows, refs := rows[id := Store.NewRow], refs[id := HashesOf(images[..])];
      LinkAll(id, m.value.hashes);
      return Ok(m.value);
    }

    method LinkAll(id: Pid, hashes: seq<Hash>)
      requires id in rows
      modifies `links
      ensures links == old(links) + (set h | h in hashes :: (id, h))
    {
      for i := 0 to |hashes|
        invariant links == old(links) + (set h | h in hashes[..i] :: (id, h))
      {
        var _ := LinkProgramAsset(id, hashes[i]);
        assert forall h :: h in hashes[..i + 1] <==> h in hashes[..i] || h == hashes[i];
      }
      assert hashes[..|hashes|] == hashes;
    }

    /** One statement; the links of the deleted programs cascade. */
    method CollectPrograms(cutoff: int) returns (n: nat)
      modifies this
      ensures Now() == GcPrograms(old(Now()), cutoff)
      ensures n == |set id | id in old(rows) && Store.Expired(old(rows)[id], cutoff)|
    {
      n := |set id | id in rows && Store.Expired(rows[id], cutoff)|;
      var keep := set id | id in rows && !Store.Expired(rows[id], cutoff);
      links := set l | l in links && l.0 in keep;
      refs := map id | id in refs && id in keep :: refs[id];
      rows := map id | id in keep :: rows[id];
    }

    /** `unreferenced` is the answer of the query for index rows no program links to.
        First the blobs, then the rows. */
    method CollectAssets(unreferenced: seq<Hash>) returns (rowsDeleted: nat, blobsDeleted: nat)
      requires Lists(unreferenced, Unreferenced(Now()))
      modifies this
      ensures Now() == GcAssets(old(Now()))
      ensures rowsDeleted == |unreferenced| && blobsDeleted <= rowsDeleted
      ensures old(RowsHaveBlobs(Now())) ==> blobsDeleted == rowsDeleted
    {
      blobsDeleted := DeleteBlobs(unreferenced);
      rowsDeleted := DeleteRows(unreferenced);
      assert (set h | h in unreferenced) == Unreferenced(old(Now()));
      assert (set h | h in unreferenced :: PathOf(h, old(assets)[h]))
             == (set h | h in Unreferenced(old(Now())) :: PathOf(h, old(assets)[h]));
    }

    method DeleteBlobs(hashes: seq<Hash>) returns (n: nat)
      requires forall h :: h in hashes ==> h in assets
      requires forall i, j :: 0 <= i < j < |hashes| ==> hashes[i] != hashes[j]
      modifies `blobs
      ensures blobs == old(blobs) - (set h | h in hashes :: PathOf(h, assets[h]))
      ensures n <= |hashes| && (old(RowsHaveBlobs(Now())) ==> n == |hashes|)
    {
      n := 0;
      for i := 0 to |hashes|
        invariant blobs == old(blobs) - (set h | h in hashes[..i] :: PathOf(h, assets[h]))
        invariant n <= i && (old(RowsHaveBlobs(Now())) ==> n == i)
      {
        var path := PathOf(hashes[i], assets[hashes[i]]);
        assert hashes[i] !in hashes[..i];
        if path in blobs { blobs := blobs - {path}; n := n + 1; }
        assert forall h :: h in hashes[..i + 1] <==> h in hashes[..i] || h == hashes[i];
      }
      assert hashes[..|hashes|] == hashes;
    }

    method DeleteRows(hashes: seq<Hash>) returns (n: nat)
      requires forall h :: h in hashes ==> h in assets
      requires forall i, j :: 0 <= i < j < |hashes| ==> hashes[i] != hashes[j]
      modifies `assets
      ensures assets == old(assets) - (set h | h in hashes) && n == |hashes|
    {
      n := 0;
      for i := 0 to |hashes|
        invariant assets == old(assets) - (set h | h in hashes[..i]) && n == i
      {
        assert hashes[i] !in hashes[..i] && hashes[i] in hashes;
        if hashes[i] in assets { assets := assets - {hashes[i]}; n := n + 1; }
        assert forall h :: h in hashes[..i + 1] <==> h in hashes[..i] || h == hashes[i];
      }
      assert hashes[..|hashes|] == hashes;
    }

    /** `files` is the directory walk. */
    method CollectOrphans(files: seq<Path>) returns (n: nat)
      requires Lists(files, blobs.Keys)
      modifies `blobs
      ensures Now() == GcOrphans(old(Now()))
      ensures n == |Orphans(old(Now()))|
    {
      n := 0;
      for i := 0 to |files|
        invariant blobs == old(blobs) - OrphansIn(files[..i], assets) && n == |OrphansIn(files[..i], assets)|
      {
        OrphansGrow(files, assets, i, old(blobs));
        if files[i].hash !in assets { blobs, n := blobs - {files[i]}, n + 1; }
      }
      assert files[..|files|] == files;
      OrphansGone(old(Now()), files, blobs);
    }

    method CollectAll(cutoff: int) returns (report: GcReport)
      modifies this
      ensures Now() == GcAll(old(Now()), cutoff)
      ensures var s1 := GcPrograms(old(Now()), cutoff);
              && report.programs == |set id | id in old(rows) && Store.Expired(old(rows)[id], cutoff)|
              && report.assets == |Unreferenced(s1)| && report.blobs <= report.assets
              && (old(RowsHaveBlobs(Now())) ==> report.blobs == report.assets)
              && report.orphans == |Orphans(GcAssets(s1))|
    {
      var programs := CollectPrograms(cutoff);
      var unreferenced := ListOf(assets.Keys - Referenced(links));
      ListLength(unreferenced, Unreferenced(Now()));
      var rowsDeleted, blobsDeleted := CollectAssets(unreferenced);
      var files := ListOf(blobs.Keys);
      var orphans := CollectOrphans(files);
      return GcReport(programs, rowsDeleted, blobsDeleted, orphans);
    }
  }
}
