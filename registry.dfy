/**
 * The registry backup as it runs: the target registry is an object whose
 * stores change as blobs and manifests are copied into it, and the walk keeps
 * its statistics in a record it updates as it goes. Each method is proved to
 * do what the specification in `RegistryWalk` says its part of the walk does.
 */
module Registry {
  import opened Common
  import opened Manifests
  import opened RegistryWalk

  /**
   * The target registry: the blobs and manifests it holds, and the keys whose
   * PUT it refuses. A HEAD answers ok exactly when the key is held.
   */
  class TargetRegistry {
    var blobs: set<Key>
    var manifests: set<Key>
    const refused: set<Key>

    constructor (blobs: set<Key>, manifests: set<Key>, refused: set<Key>)
      ensures this.blobs == blobs && this.manifests == manifests && this.refused == refused
    {
      this.blobs := blobs;
      this.manifests := manifests;
      this.refused := refused;
    }

    /** The target's stores with the walk's record and stats: the state the specification speaks of. */
    function Snapshot(log: seq<Copy>, stats: Stats): World
      reads this
    {
      World(blobs, manifests, log, stats)
    }

    /** `putBlob`: answers whether the upload was accepted; an accepted blob is stored. */
    method PutBlob(key: Key) returns (success: bool)
      modifies this
      ensures success == (key !in refused)
      ensures blobs == (if success then old(blobs) + {key} else old(blobs))
      ensures manifests == old(manifests)
    {
      success := key !in refused;
      if success {
        blobs := blobs + {key};
      }
    }

    /** `putManifest` with the manifest's media type as Content-Type; a refused PUT stores nothing. */
    method PutManifest(key: Key, mediaType: string)
      modifies this
      ensures manifests == (if key in refused then old(manifests) else old(manifests) + {key})
      ensures blobs == old(blobs)
    {
      if key !in refused {
        manifests := manifests + {key};
      }
    }
  }

  /** The target and the walk's state agree with the specification's outcome `o`. */
  ghost predicate Reached(o: Outcome, r: Result<Stats, Failure>, target: TargetRegistry, log: seq<Copy>)
    reads target
  {
    && target.blobs == o.world.blobs && target.manifests == o.world.manifests && log == o.world.log
    && (if o.failure.Some? then r == Err(o.failure.value) else r == Ok(o.world.stats))
  }

  /**
   * `copyBlob`: 0 when the target already has the blob, without asking the
   * source or uploading; otherwise the source must have it ("blob not found")
   * and the target must accept it ("failed to upload"), and then 1, with the
   * blob now at the target.
   */
  method CopyBlob(source: Source, repository: string, desc: Descriptor, target: TargetRegistry)
    returns (r: Result<nat, Failure>)
    modifies target
    ensures var key := Key(repository, desc.digest);
      && r == BlobTransfer(Env(source, target.refused), old(target.blobs), key)
      && target.blobs == (if r == Ok(1) then old(target.blobs) + {key} else old(target.blobs))
      && target.manifests == old(target.manifests)
    ensures Key(repository, desc.digest) in old(target.blobs) ==> r == Ok(0)
    ensures r == Ok(1) ==> Key(repository, desc.digest) in target.blobs
  {
    var key := Key(repository, desc.digest);
    var held := key in target.blobs;
    if held {
      return Ok(0);
    }
    if key !in source.blobs {
      return Err(BlobNotFound);
    }
    var success := target.PutBlob(key);
    if !success {
      return Err(UploadFailed);
    }
    return Ok(1);
  }

  /**
   * `copyManifest`: 0 when the target already has the manifest, without
   * asking the source; otherwise the source must serve it ("manifest not
   * found"), it is PUT with its media type, and the answer is 1 whatever the
   * PUT's outcome.
   */
  method CopyManifest(source: Source, repository: string, reference: string, manifest: Manifest, target: TargetRegistry)
    returns (r: Result<nat, Failure>)
    modifies target
    ensures var key := Key(repository, reference);
      && r == ManifestTransfer(Env(source, target.refused), old(target.manifests), key)
      && target.manifests ==
           (if r == Ok(1) && key !in target.refused then old(target.manifests) + {key} else old(target.manifests))
      && target.blobs == old(target.blobs)
    ensures Key(repository, reference) in old(target.manifests) ==> r == Ok(0)
  {
    var key := Key(repository, reference);
    var held := key in target.manifests;
    if held {
      return Ok(0);
    }
    if key !in source.manifests {
      return Err(ManifestNotFound);
    }
    target.PutManifest(key, manifest.MediaType());
    return Ok(1);
  }

  /** One blob copy of the walk, adding its result to `stats.blobs`. */
  method BlobStep(source: Source, repository: string, desc: Descriptor, target: TargetRegistry,
                  stats: Stats, ghost log: seq<Copy>)
    returns (r: Result<Stats, Failure>, ghost log': seq<Copy>)
    modifies target
    ensures Reached(Apply(Env(source, target.refused), old(target.Snapshot(log, stats)), BlobCopy(repository, desc)),
                    r, target, log')
  {
    var n := CopyBlob(source, repository, desc, target);
    if n.Err? {
      return Err(n.error), log;
    }
    log' := log + [Copy(BlobCopy(repository, desc), n.value == 1)];
    r := Ok(stats.(blobs := stats.blobs + n.value));
  }

  /** One manifest copy of the walk; a top-level one adds its result to `stats.total`. */
  method ManifestStep(source: Source, repository: string, reference: string, manifest: Manifest, top: bool,
                      target: TargetRegistry, stats: Stats, ghost log: seq<Copy>)
    returns (r: Result<Stats, Failure>, ghost log': seq<Copy>)
    modifies target
    ensures Reached(Apply(Env(source, target.refused), old(target.Snapshot(log, stats)),
                          ManifestCopy(repository, reference, manifest.MediaType(), top)),
                    r, target, log')
  {
    var n := CopyManifest(source, repository, reference, manifest, target);
    if n.Err? {
      return Err(n.error), log;
    }
    log' := log + [Copy(ManifestCopy(repository, reference, manifest.MediaType(), top), n.value == 1)];
    r := Ok(if top then stats.(total := stats.total + n.value) else stats);
  }

  /**
   * The blobs of an OCI or Docker image manifest: its config when present,
   * then each layer in order. (The walk repeats this block for an index
   * child, a root OCI manifest and a Docker manifest.)
   */
  method CopyImageBlobs(source: Source, repository: string, m: Manifest, target: TargetRegistry,
                        stats: Stats, ghost log: seq<Copy>)
    returns (r: Result<Stats, Failure>, ghost log': seq<Copy>)
    requires m.OciManifest? || m.DockerManifest?
    modifies target
    ensures Reached(Exec(Env(source, target.refused), old(target.Snapshot(log, stats)), BlobSteps(repository, m.Blobs())),
                    r, target, log')
  {
    ghost var env := Env(source, target.refused);
    ghost var w0 := target.Snapshot(log, stats);
    ghost var layers := BlobSteps(repository, m.layers);
    var current := stats;
    log' := log;
    if m.config.Some? {
      BlobStepsConfig(repository, m);
      r, log' := BlobStep(source, repository, m.config.value, target, current, log');
      if r.Err? {
        return;
      }
      current := r.value;
    } else {
      assert BlobSteps(repository, m.Blobs()) == layers;
    }
    var i := 0;
    while i < |m.layers|
      invariant 0 <= i <= |m.layers|
      invariant Exec(env, w0, BlobSteps(repository, m.Blobs())) == Exec(env, target.Snapshot(log', current), layers[i..])
    {
      assert layers[i..][0] == BlobCopy(repository, m.layers[i]) && layers[i..][1..] == layers[i + 1..];
      r, log' := BlobStep(source, repository, m.layers[i], target, current, log');
      if r.Err? {
        return;
      }
      current := r.value;
      i := i + 1;
    }
    r := Ok(current);
  }

  /** The blob steps of an image manifest with a config: the config's, then the layers'. */
  lemma BlobStepsConfig(repository: string, m: Manifest)
    requires (m.OciManifest? || m.DockerManifest?) && m.config.Some?
    ensures var s := BlobSteps(repository, m.Blobs());
      s != [] && s[0] == BlobCopy(repository, m.config.value) && s[1..] == BlobSteps(repository, m.layers)
  {
    var s := BlobSteps(repository, m.Blobs());
    assert s[1..] == BlobSteps(repository, m.layers);
  }

  /**
   * One entry of an OCI index: the child manifest must be served by the
   * source; an OCI image manifest child has its blobs copied; then the child
   * is copied by digest and `ociManifest.child` counts it.
   */
  method ProcessChild(source: Source, repository: string, entry: Descriptor, target: TargetRegistry,
                      stats: Stats, ghost log: seq<Copy>)
    returns (r: Result<Stats, Failure>, ghost log': seq<Copy>)
    modifies target
    ensures Reached(ExecPlan(Env(source, target.refused), old(target.Snapshot(log, stats)), ChildPlan(source, repository, entry)),
                    r, target, log')
  {
    ghost var env := Env(source, target.refused);
    ghost var w0 := target.Snapshot(log, stats);
    var key := Key(repository, entry.digest);
    if key !in source.manifests {
      return Err(ManifestNotFound), log;
    }
    var child := source.manifests[key];
    var current := stats;
    log' := log;
    ghost var blobs := if child.OciManifest? then BlobSteps(repository, child.Blobs()) else [];
    ghost var tail := [ManifestCopy(repository, entry.digest, child.MediaType(), false), Tally(OciManifestChild)];
    assert ChildPlan(source, repository, entry) == Plan(blobs + tail, false);
    ExecAppend(env, w0, blobs, tail);
    if child.MediaType() == OciImageManifestV1 {
      r, log' := CopyImageBlobs(source, repository, child, target, current, log');
      if r.Err? {
        return;
      }
      current := r.value;
    }
    assert Exec(env, w0, blobs) == Outcome(target.Snapshot(log', current), None);
    ExecPair(env, target.Snapshot(log', current), tail[0], tail[1]);
    r, log' := ManifestStep(source, repository, entry.digest, child, false, target, current, log');
    if r.Err? {
      return;
    }
    current := r.value;
    current := current.(ociManifestChild := current.ociManifestChild + 1);
    r := Ok(current);
  }

  /** Running one step. */
  lemma ExecSingle(env: Env, w: World, a: Step)
    ensures Exec(env, w, [a]) == Apply(env, w, a)
  {
    assert [a][1..] == [];
    var o := Apply(env, w, a);
    assert Exec(env, o.world, []) == Outcome(o.world, None);
  }

  /** Running two steps. */
  lemma ExecPair(env: Env, w: World, a: Step, b: Step)
    ensures Exec(env, w, [a, b]) ==
      (var o := Apply(env, w, a); if o.failure.Some? then o else Apply(env, o.world, b))
  {
    assert [a, b][1..] == [b];
    ExecSingle(env, Apply(env, w, a).world, b);
  }

  /**
   * One tag: its manifest must be served by the source; dispatch on the
   * manifest's media type; then the manifest is copied by tag and adds to
   * `total`.
   */
  method ProcessTag(source: Source, repository: string, tag: string, target: TargetRegistry,
                    stats: Stats, ghost log: seq<Copy>)
    returns (r: Result<Stats, Failure>, ghost log': seq<Copy>)
    modifies target
    ensures Reached(ExecPlan(Env(source, target.refused), old(target.Snapshot(log, stats)), TagPlan(source, repository, tag)),
                    r, target, log')
  {
    ghost var env := Env(source, target.refused);
    ghost var w0 := target.Snapshot(log, stats);
    var key := Key(repository, tag);
    if key !in source.manifests {
      return Err(ManifestNotFound), log;
    }
    var manifest := source.manifests[key];
    ghost var top := Plan([ManifestCopy(repository, tag, manifest.MediaType(), true)], false);
    ExecThen(env, w0, DispatchPlan(source, repository, manifest), top);
    r, log' := Dispatch(source, repository, manifest, target, stats, log);
    if r.Err? {
      return;
    }
    ExecSingle(env, target.Snapshot(log', r.value), top.steps[0]);
    r, log' := ManifestStep(source, repository, tag, manifest, true, target, r.value, log');
  }

  /**
   * The three media-type branches of a tag's walk, tested in turn: an index
   * processes each child in order; an OCI or Docker image manifest copies its
   * blobs; each kind is counted once; any other media type does nothing.
   */
  method Dispatch(source: Source, repository: string, manifest: Manifest, target: TargetRegistry,
                  stats: Stats, ghost log: seq<Copy>)
    returns (r: Result<Stats, Failure>, ghost log': seq<Copy>)
    modifies target
    ensures Reached(ExecPlan(Env(source, target.refused), old(target.Snapshot(log, stats)), DispatchPlan(source, repository, manifest)),
                    r, target, log')
  {
    ghost var env := Env(source, target.refused);
    ghost var w0 := target.Snapshot(log, stats);
    log' := log;
    r := Ok(stats);
    if manifest.MediaType() == OciImageIndexV1 {
      ExecThen(env, w0, Plan([Tally(OciIndexCount)], false), ChildrenPlan(source, repository, manifest.manifests));
      var counted := stats.(ociIndex := stats.ociIndex + 1);
      r, log' := ProcessChildren(source, repository, manifest.manifests, target, counted, log');
    }
    if manifest.MediaType() == OciImageManifestV1 {
      var counted := stats.(ociManifestRoot := stats.ociManifestRoot + 1);
      assert ([Tally(OciManifestRoot)] + BlobSteps(repository, manifest.Blobs()))[1..] == BlobSteps(repository, manifest.Blobs());
      r, log' := CopyImageBlobs(source, repository, manifest, target, counted, log');
    }
    if manifest.MediaType() == DockerDistributionManifestV2 {
      var counted := stats.(dockerManifest := stats.dockerManifest + 1);
      assert ([Tally(DockerManifestCount)] + BlobSteps(repository, manifest.Blobs()))[1..] == BlobSteps(repository, manifest.Blobs());
      r, log' := CopyImageBlobs(source, repository, manifest, target, counted, log');
    }
  }

  /** The loop over an index's entries, in order, stopping at the first failure. */
  method ProcessChildren(source: Source, repository: string, entries: seq<Descriptor>, target: TargetRegistry,
                         stats: Stats, ghost log: seq<Copy>)
    returns (r: Result<Stats, Failure>, ghost log': seq<Copy>)
    modifies target
    ensures Reached(ExecPlan(Env(source, target.refused), old(target.Snapshot(log, stats)), ChildrenPlan(source, repository, entries)),
                    r, target, log')
  {
    ghost var env := Env(source, target.refused);
    ghost var w0 := target.Snapshot(log, stats);
    var current := stats;
    log' := log;
    var i := 0;
    while i < |entries|
      invariant 0 <= i <= |entries|
      invariant ExecPlan(env, w0, ChildrenPlan(source, repository, entries)) ==
        ExecPlan(env, target.Snapshot(log', current), ChildrenPlan(source, repository, entries[i..]))
    {
      assert entries[i..][0] == entries[i] && entries[i..][1..] == entries[i + 1..];
      ExecThen(env, target.Snapshot(log', current), ChildPlan(source, repository, entries[i]),
               ChildrenPlan(source, repository, entries[i + 1..]));
      r, log' := ProcessChild(source, repository, entries[i], target, current, log');
      if r.Err? {
        return;
      }
      current := r.value;
      i := i + 1;
    }
    assert entries[i..] == [];
    r := Ok(current);
  }

  /**
   * `runRegistryBackup` from the image list on: every tag of every image in
   * turn; after an image's tags, stop once `total` exceeds `MaxTotal`. The
   * target ends as the specification's `Backup` says, and the stats returned
   * are its stats.
   */
  method RunRegistryBackup(source: Source, images: seq<Image>, target: TargetRegistry)
    returns (r: Result<Stats, Failure>)
    modifies target
    ensures var o := Backup(Env(source, target.refused), World(old(target.blobs), old(target.manifests), [], NoStats), images);
      && target.blobs == o.world.blobs && target.manifests == o.world.manifests
      && (if o.failure.Some? then r == Err(o.failure.value) else r == Ok(o.world.stats))
  {
    ghost var env := Env(source, target.refused);
    ghost var w0 := target.Snapshot([], NoStats);
    var stats := NoStats;
    ghost var log: seq<Copy> := [];
    var i := 0;
    while i < |images|
      invariant 0 <= i <= |images|
      invariant Backup(env, w0, images) == Backup(env, target.Snapshot(log, stats), images[i..])
    {
      var image := images[i];
      ghost var wImage := target.Snapshot(log, stats);
      assert images[i..][0] == image && images[i..][1..] == images[i + 1..];
      var j := 0;
      while j < |image.tags|
        invariant 0 <= j <= |image.tags|
        invariant ExecPlan(env, wImage, ImagePlan(source, image)) ==
          ExecPlan(env, target.Snapshot(log, stats), TagsPlan(source, image.name, image.tags[j..]))
      {
        var tag := image.tags[j];
        assert image.tags[j..][0] == tag && image.tags[j..][1..] == image.tags[j + 1..];
        ExecThen(env, target.Snapshot(log, stats), TagPlan(source, image.name, tag),
                 TagsPlan(source, image.name, image.tags[j + 1..]));
        var res;
        res, log := ProcessTag(source, image.name, tag, target, stats, log);
        if res.Err? {
          return Err(res.error);
        }
        stats := res.value;
        j := j + 1;
      }
      assert image.tags[j..] == [];
      if stats.total > MaxTotal {
        break;
      }
      i := i + 1;
    }
    r := Ok(stats);
  }
}
