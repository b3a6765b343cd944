/**
 * The replication walk of the registry backup as a specification: which
 * copies each tag of each image asks for (a plan, fixed by the source
 * registry alone), and what executing those copies against the target
 * registry does to the target's stores and to the run's statistics.
 */
module RegistryWalk {
  import opened Common
  import opened Manifests

  /** No further image is started once more than this many top-level manifests were transferred. */
  const MaxTotal: nat := 10

  /** A repository and a tag or digest within it. */
  datatype Key = Key(repository: string, reference: string)

  /**
   * The source registry, unchanged during a run: the manifests it serves by
   * tag or digest, and the blobs it serves by digest. A GET has a body exactly
   * when the key is present.
   */
  datatype Source = Source(manifests: map<Key, Manifest>, blobs: set<Key>)

  /** The fixed behaviour of both registries: the source, and the keys whose PUT the target refuses. */
  datatype Env = Env(source: Source, refused: set<Key>)

  /** A container image to back up, with its tags. */
  datatype Image = Image(name: string, tags: seq<string>)

  /** A version of a GitHub package, with its container tags. */
  datatype PackageVersion = PackageVersion(name: string, tags: seq<string>)

  /** The counters that count processed items, whether or not anything was copied. */
  datatype Counter = OciIndexCount | OciManifestRoot | OciManifestChild | DockerManifestCount

  /** One step of the walk. A top-level manifest copy adds to `total`; a child's does not. */
  datatype Step =
    | Tally(counter: Counter)
    | BlobCopy(repository: string, desc: Descriptor)
    | ManifestCopy(repository: string, reference: string, mediaType: string, top: bool)

  /** The steps asked for, and whether they end in "manifest not found". */
  datatype Plan = Plan(steps: seq<Step>, missing: bool)

  datatype Stats = Stats(blobs: nat, ociIndex: nat, ociManifestRoot: nat, ociManifestChild: nat, dockerManifest: nat, total: nat)

  const NoStats: Stats := Stats(0, 0, 0, 0, 0, 0)

  /** Why the run throws. */
  datatype Failure = ManifestNotFound | BlobNotFound | UploadFailed

  /** A copy the walk made, and whether it transferred anything or found the key present. */
  datatype Copy = Copy(step: Step, transferred: bool)

  /** The target registry's stores, the copies made so far and the run's stats. */
  datatype World = World(blobs: set<Key>, manifests: set<Key>, log: seq<Copy>, stats: Stats)

  /** Where a run got to, and the failure it stopped on, if any. */
  datatype Outcome = Outcome(world: World, failure: Option<Failure>)

  // What copying one item does.

  /** `copyBlob`'s result: 0 when the target has the blob; else the blob must be in the source and the upload accepted. */
  function BlobTransfer(env: Env, blobs: set<Key>, key: Key): Result<nat, Failure>
  {
    if key in blobs then Ok(0)
    else if key !in env.source.blobs then Err(BlobNotFound)
    else if key in env.refused then Err(UploadFailed)
    else Ok(1)
  }

  /** `copyManifest`'s result: 0 when the target has the manifest; else the source must serve it; the PUT's answer is ignored. */
  function ManifestTransfer(env: Env, manifests: set<Key>, key: Key): Result<nat, Failure>
  {
    if key in manifests then Ok(0)
    else if key !in env.source.manifests then Err(ManifestNotFound)
    else Ok(1)
  }

  function Bump(stats: Stats, counter: Counter): Stats
  {
    match counter
    case OciIndexCount => stats.(ociIndex := stats.ociIndex + 1)
    case OciManifestRoot => stats.(ociManifestRoot := stats.ociManifestRoot + 1)
    case OciManifestChild => stats.(ociManifestChild := stats.ociManifestChild + 1)
    case DockerManifestCount => stats.(dockerManifest := stats.dockerManifest + 1)
  }

  /** One step. A failing step changes nothing. */
  function Apply(env: Env, w: World, step: Step): Outcome
  {
    match step
    case Tally(c) => Outcome(w.(stats := Bump(w.stats, c)), None)
    case BlobCopy(repository, desc) =>
      var key := Key(repository, desc.digest);
      (match BlobTransfer(env, w.blobs, key)
       case Err(e) => Outcome(w, Some(e))
       case Ok(n) =>
         Outcome(World(if n == 1 then w.blobs + {key} else w.blobs, w.manifests, w.log + [Copy(step, n == 1)],
                       w.stats.(blobs := w.stats.blobs + n)), None))
    case ManifestCopy(repository, reference, _, top) =>
      var key := Key(repository, reference);
      match ManifestTransfer(env, w.manifests, key)
      case Err(e) => Outcome(w, Some(e))
      case Ok(n) =>
        Outcome(World(w.blobs, if n == 1 && key !in env.refused then w.manifests + {key} else w.manifests,
                      w.log + [Copy(step, n == 1)], if top then w.stats.(total := w.stats.total + n) else w.stats), None)
  }

  /** The steps in order, stopping at the first failure. */
  function Exec(env: Env, w: World, steps: seq<Step>): Outcome
    decreases |steps|
  {
    if steps == [] then Outcome(w, None)
    else
      var o := Apply(env, w, steps[0]);
      if o.failure.Some? then o else Exec(env, o.world, steps[1..])
  }

  /** A plan's steps, then "manifest not found" when the plan ends missing. */
  function ExecPlan(env: Env, w: World, plan: Plan): Outcome
  {
    var o := Exec(env, w, plan.steps);
    if o.failure.None? && plan.missing then o.(failure := Some(ManifestNotFound)) else o
  }

  /** `p`, then `q` unless `p` threw. */
  function Then(p: Plan, q: Plan): Plan
  {
    if p.missing then p else Plan(p.steps + q.steps, q.missing)
  }

  // The plans, from the source alone.

  function BlobSteps(repository: string, descs: seq<Descriptor>): (steps: seq<Step>)
    ensures |steps| == |descs|
    ensures forall i :: 0 <= i < |descs| ==> steps[i] == BlobCopy(repository, descs[i])
  {
    seq(|descs|, i requires 0 <= i < |descs| => BlobCopy(repository, descs[i]))
  }

  /**
   * One entry of an OCI index: the child manifest by digest (missing throws);
   * an OCI image manifest child has its blobs copied first; every child is
   * copied by digest and counted.
   */
  function ChildPlan(source: Source, repository: string, entry: Descriptor): Plan
  {
    var key := Key(repository, entry.digest);
    if key !in source.manifests then Plan([], true)
    else
      var child := source.manifests[key];
      Plan((if child.OciManifest? then BlobSteps(repository, child.Blobs()) else [])
           + [ManifestCopy(repository, entry.digest, child.MediaType(), false), Tally(OciManifestChild)], false)
  }

  function ChildrenPlan(source: Source, repository: string, entries: seq<Descriptor>): Plan
    decreases |entries|
  {
    if entries == [] then Plan([], false)
    else Then(ChildPlan(source, repository, entries[0]), ChildrenPlan(source, repository, entries[1..]))
  }

  /** The part of a tag's walk that depends on the manifest's media type. */
  function DispatchPlan(source: Source, repository: string, m: Manifest): Plan
  {
    match m
    case OciIndex(entries) => Then(Plan([Tally(OciIndexCount)], false), ChildrenPlan(source, repository, entries))
    case OciManifest(_, _) => Plan([Tally(OciManifestRoot)] + BlobSteps(repository, m.Blobs()), false)
    case DockerManifest(_, _) => Plan([Tally(DockerManifestCount)] + BlobSteps(repository, m.Blobs()), false)
    case Unrecognised(_) => Plan([], false)
  }

  /** One tag: fetch its manifest (missing throws), dispatch, then copy it by tag. */
  function TagPlan(source: Source, repository: string, tag: string): Plan
  {
    var key := Key(repository, tag);
    if key !in source.manifests then Plan([], true)
    else
      var m := source.manifests[key];
      Then(DispatchPlan(source, repository, m), Plan([ManifestCopy(repository, tag, m.MediaType(), true)], false))
  }

  function TagsPlan(source: Source, repository: string, tags: seq<string>): Plan
    decreases |tags|
  {
    if tags == [] then Plan([], false)
    else Then(TagPlan(source, repository, tags[0]), TagsPlan(source, repository, tags[1..]))
  }

  function ImagePlan(source: Source, image: Image): Plan
  {
    TagsPlan(source, image.name, image.tags)
  }

  /** Every image in turn, with no early stop. */
  function ExecImages(env: Env, w: World, images: seq<Image>): Outcome
    decreases |images|
  {
    if images == [] then Outcome(w, None)
    else
      var o := ExecPlan(env, w, ImagePlan(env.source, images[0]));
      if o.failure.Some? then o else ExecImages(env, o.world, images[1..])
  }

  /** `runRegistryBackup`'s loop over images: after all tags of an image, stop once `total` exceeds `MaxTotal`. */
  function Backup(env: Env, w: World, images: seq<Image>): Outcome
    decreases |images|
  {
    if images == [] then Outcome(w, None)
    else
      var o := ExecPlan(env, w, ImagePlan(env.source, images[0]));
      if o.failure.Some? || o.world.stats.total > MaxTotal then o else Backup(env, o.world, images[1..])
  }

  /** The image list `fetchGitHubInfo` builds: one image per package, named `org/package`, with every version's tags. */
  function Images(org: string, packages: seq<(string, seq<PackageVersion>)>): (images: seq<Image>)
    ensures |images| == |packages|
    ensures forall i :: 0 <= i < |packages| ==>
      images[i].name == org + "/" + packages[i].0 && images[i].tags == FlatTags(packages[i].1)
  {
    seq(|packages|, i requires 0 <= i < |packages| => Image(org + "/" + packages[i].0, FlatTags(packages[i].1)))
  }

  /** The container tags of every version, version by version, in order. */
  function FlatTags(versions: seq<PackageVersion>): seq<string>
  {
    if versions == [] then [] else FlatTags(versions[..|versions| - 1]) + versions[|versions| - 1].tags
  }

  // Properties of executing steps.

  /** Running `a + b` is running `a`, then `b` unless `a` failed. */
  lemma {:induction false} ExecAppend(env: Env, w: World, a: seq<Step>, b: seq<Step>)
    ensures Exec(env, w, a + b) ==
      (var o := Exec(env, w, a); if o.failure.Some? then o else Exec(env, o.world, b))
    decreases |a|
  {
    if a == [] {
      assert a + b == b;
    } else {
      assert (a + b)[0] == a[0] && (a + b)[1..] == a[1..] + b;
      var o := Apply(env, w, a[0]);
      if o.failure.None? {
        ExecAppend(env, o.world, a[1..], b);
      }
    }
  }

  /** Running `Then(p, q)` is running `p`, then `q` unless `p` threw. */
  lemma ExecThen(env: Env, w: World, p: Plan, q: Plan)
    ensures ExecPlan(env, w, Then(p, q)) ==
      (var o := ExecPlan(env, w, p); if o.failure.Some? then o else ExecPlan(env, o.world, q))
  {
    if !p.missing {
      ExecAppend(env, w, p.steps, q.steps);
    }
  }

  /** The stores only grow, and the record of copies only gets longer. */
  lemma {:induction false} ExecGrows(env: Env, w: World, steps: seq<Step>)
    ensures var o := Exec(env, w, steps);
      w.blobs <= o.world.blobs && w.manifests <= o.world.manifests && w.log <= o.world.log
    decreases |steps|
  {
    if steps != [] {
      var o := Apply(env, w, steps[0]);
      if o.failure.None? {
        ExecGrows(env, o.world, steps[1..]);
      }
    }
  }

  /** How many of `steps` are tallies of `counter`. */
  function Tallies(steps: seq<Step>, counter: Counter): nat
  {
    if steps == [] then 0 else (if steps[0] == Tally(counter) then 1 else 0) + Tallies(steps[1..], counter)
  }

  /** How many copies in `log` transferred a blob. */
  function BlobsTransferred(log: seq<Copy>): nat
  {
    if log == [] then 0 else (if log[0].transferred && log[0].step.BlobCopy? then 1 else 0) + BlobsTransferred(log[1..])
  }

  /** How many copies in `log` transferred a top-level manifest. */
  function TopsTransferred(log: seq<Copy>): nat
  {
    if log == [] then 0
    else (if log[0].transferred && log[0].step.ManifestCopy? && log[0].step.top then 1 else 0) + TopsTransferred(log[1..])
  }

  /** Both counts of transferred copies add up over consecutive stretches of the log. */
  lemma {:induction false} TransferredAppend(a: seq<Copy>, b: seq<Copy>)
    ensures BlobsTransferred(a + b) == BlobsTransferred(a) + BlobsTransferred(b)
    ensures TopsTransferred(a + b) == TopsTransferred(a) + TopsTransferred(b)
    decreases |a|
  {
    if a == [] {
      assert a + b == b;
    } else {
      assert (a + b)[0] == a[0] && (a + b)[1..] == a[1..] + b;
      TransferredAppend(a[1..], b);
    }
  }

  /** What a log gained past `before` is what it gained up to `middle`, then past `middle`. */
  lemma LogSplit(before: seq<Copy>, middle: seq<Copy>, after: seq<Copy>)
    requires before <= middle <= after
    ensures before <= after
    ensures after[|before|..] == middle[|before|..] + after[|middle|..]
  {
  }

  /**
   * The stats of a run that did not throw: `blobs` grows by the blobs
   * transferred, which is exactly how much the target's blob store grew (a
   * skip adds 0); `total` grows by the top-level manifests transferred; each
   * processed-item counter grows by one per tally step, whether or not
   * anything was copied.
   */
  lemma ExecStats(env: Env, w: World, steps: seq<Step>)
    requires Exec(env, w, steps).failure.None?
    ensures var o := Exec(env, w, steps).world;
      && w.log <= o.log
      && o.stats.blobs == w.stats.blobs + BlobsTransferred(o.log[|w.log|..])
      && |o.blobs| == |w.blobs| + BlobsTransferred(o.log[|w.log|..])
      && o.stats.total == w.stats.total + TopsTransferred(o.log[|w.log|..])
      && o.stats.ociIndex == w.stats.ociIndex + Tallies(steps, OciIndexCount)
      && o.stats.ociManifestRoot == w.stats.ociManifestRoot + Tallies(steps, OciManifestRoot)
      && o.stats.ociManifestChild == w.stats.ociManifestChild + Tallies(steps, OciManifestChild)
      && o.stats.dockerManifest == w.stats.dockerManifest + Tallies(steps, DockerManifestCount)
  {
    ExecTransfers(env, w, steps);
    ExecTallies(env, w, steps);
  }

  /** The transfer half of `ExecStats`. */
  lemma {:induction false} ExecTransfers(env: Env, w: World, steps: seq<Step>)
    requires Exec(env, w, steps).failure.None?
    ensures var o := Exec(env, w, steps).world;
      && w.log <= o.log
      && o.stats.blobs == w.stats.blobs + BlobsTransferred(o.log[|w.log|..])
      && |o.blobs| == |w.blobs| + BlobsTransferred(o.log[|w.log|..])
      && o.stats.total == w.stats.total + TopsTransferred(o.log[|w.log|..])
    decreases |steps|
  {
    if steps == [] {
      assert w.log[|w.log|..] == [];
    } else {
      var w1 := Apply(env, w, steps[0]).world;
      ApplyTransfers(env, w, steps[0]);
      ExecTransfers(env, w1, steps[1..]);
      var o := Exec(env, w1, steps[1..]).world;
      LogSplit(w.log, w1.log, o.log);
      TransferredAppend(w1.log[|w.log|..], o.log[|w1.log|..]);
    }
  }

  /** `ExecTransfers` for one step. */
  lemma ApplyTransfers(env: Env, w: World, step: Step)
    requires Apply(env, w, step).failure.None?
    ensures var a := Apply(env, w, step).world;
      && w.log <= a.log
      && a.stats.blobs == w.stats.blobs + BlobsTransferred(a.log[|w.log|..])
      && |a.blobs| == |w.blobs| + BlobsTransferred(a.log[|w.log|..])
      && a.stats.total == w.stats.total + TopsTransferred(a.log[|w.log|..])
  {
    var a := Apply(env, w, step).world;
    if step.Tally? {
      assert a.log[|w.log|..] == [];
    } else {
      var gained := a.log[|w.log|..];
      assert gained == [a.log[|w.log|]];
      assert gained[1..] == [];
    }
  }

  /** The tally half of `ExecStats`. */
  lemma {:induction false} ExecTallies(env: Env, w: World, steps: seq<Step>)
    requires Exec(env, w, steps).failure.None?
    ensures var o := Exec(env, w, steps).world;
      && o.stats.ociIndex == w.stats.ociIndex + Tallies(steps, OciIndexCount)
      && o.stats.ociManifestRoot == w.stats.ociManifestRoot + Tallies(steps, OciManifestRoot)
      && o.stats.ociManifestChild == w.stats.ociManifestChild + Tallies(steps, OciManifestChild)
      && o.stats.dockerManifest == w.stats.dockerManifest + Tallies(steps, DockerManifestCount)
    decreases |steps|
  {
    if steps != [] {
      ExecTallies(env, Apply(env, w, steps[0]).world, steps[1..]);
    }
  }

  /** The keys a step copies to. */
  function BlobKeys(steps: seq<Step>): set<Key>
  {
    set i | 0 <= i < |steps| && steps[i].BlobCopy? :: Key(steps[i].repository, steps[i].desc.digest)
  }

  function ManifestKeys(steps: seq<Step>): set<Key>
  {
    set i | 0 <= i < |steps| && steps[i].ManifestCopy? :: Key(steps[i].repository, steps[i].reference)
  }

  /** After a run that did not throw, the target holds every blob copied and every manifest whose PUT it did not refuse. */
  lemma {:induction false} ExecCovers(env: Env, w: World, steps: seq<Step>)
    requires Exec(env, w, steps).failure.None?
    ensures var o := Exec(env, w, steps).world;
      BlobKeys(steps) <= o.blobs && ManifestKeys(steps) - env.refused <= o.manifests
    decreases |steps|
  {
    if steps != [] {
      var a := Apply(env, w, steps[0]);
      ExecCovers(env, a.world, steps[1..]);
      ExecGrows(env, a.world, steps[1..]);
      forall i | 0 <= i < |steps| && i > 0
        ensures steps[i] == steps[1..][i - 1]
      {
      }
    }
  }

  /**
   * When the target already holds every key the steps copy, running them
   * transfers nothing: the stores are unchanged and every copy is a skip.
   */
  lemma {:induction false} ExecSkipsPresent(env: Env, w: World, steps: seq<Step>)
    requires BlobKeys(steps) <= w.blobs && ManifestKeys(steps) <= w.manifests
    ensures var o := Exec(env, w, steps);
      && o.failure.None?
      && o.world.blobs == w.blobs && o.world.manifests == w.manifests
      && o.world.stats.blobs == w.stats.blobs && o.world.stats.total == w.stats.total
      && w.log <= o.world.log
      && forall c :: c in o.world.log[|w.log|..] ==> !c.transferred
    decreases |steps|
  {
    if steps != [] {
      KeysTail(steps);
      var a := Apply(env, w, steps[0]);
      ApplySkipsPresent(env, w, steps[0]);
      ExecSkipsPresent(env, a.world, steps[1..]);
      var o := Exec(env, a.world, steps[1..]).world;
      LogSplit(w.log, a.world.log, o.log);
    }
  }

  /** `ExecSkipsPresent` for one step whose key the target already holds. */
  lemma ApplySkipsPresent(env: Env, w: World, step: Step)
    requires step.BlobCopy? ==> Key(step.repository, step.desc.digest) in w.blobs
    requires step.ManifestCopy? ==> Key(step.repository, step.reference) in w.manifests
    ensures var o := Apply(env, w, step);
      && o.failure.None?
      && o.world.blobs == w.blobs && o.world.manifests == w.manifests
      && o.world.stats.blobs == w.stats.blobs && o.world.stats.total == w.stats.total
      && w.log <= o.world.log
      && forall c :: c in o.world.log[|w.log|..] ==> !c.transferred
  {
    var o := Apply(env, w, step);
    if step.Tally? {
      assert o.world.log[|w.log|..] == [];
    } else {
      assert o.world.log[|w.log|..] == [Copy(step, false)];
    }
  }

  /** The keys the later steps copy to are among those all the steps copy to; the first step's key is too. */
  lemma KeysTail(steps: seq<Step>)
    requires steps != []
    ensures BlobKeys(steps[1..]) <= BlobKeys(steps) && ManifestKeys(steps[1..]) <= ManifestKeys(steps)
    ensures steps[0].BlobCopy? ==> Key(steps[0].repository, steps[0].desc.digest) in BlobKeys(steps)
    ensures steps[0].ManifestCopy? ==> Key(steps[0].repository, steps[0].reference) in ManifestKeys(steps)
  {
    forall k | k in BlobKeys(steps[1..]) ensures k in BlobKeys(steps) {
      var i :| 0 <= i < |steps[1..]| && steps[1..][i].BlobCopy? && k == Key(steps[1..][i].repository, steps[1..][i].desc.digest);
      assert steps[i + 1] == steps[1..][i];
    }
    forall k | k in ManifestKeys(steps[1..]) ensures k in ManifestKeys(steps) {
      var i :| 0 <= i < |steps[1..]| && steps[1..][i].ManifestCopy? && k == Key(steps[1..][i].repository, steps[1..][i].reference);
      assert steps[i + 1] == steps[1..][i];
    }
  }

  /**
   * Running the same steps again, after a run that did not throw and in which
   * no manifest PUT was refused, transfers nothing and leaves the stores as
   * they were.
   */
  lemma ExecIdempotent(env: Env, w: World, steps: seq<Step>)
    requires Exec(env, w, steps).failure.None?
    requires ManifestKeys(steps) !! env.refused
    ensures var o := Exec(env, w, steps).world;
      var again := Exec(env, o, steps);
      && again.failure.None?
      && again.world.blobs == o.blobs && again.world.manifests == o.manifests
      && again.world.stats.blobs == o.stats.blobs && again.world.stats.total == o.stats.total
      && o.log <= again.world.log
      && forall c :: c in again.world.log[|o.log|..] ==> !c.transferred
  {
    ExecCovers(env, w, steps);
    var o := Exec(env, w, steps).world;
    assert ManifestKeys(steps) - env.refused == ManifestKeys(steps);
    ExecSkipsPresent(env, o, steps);
  }

  // Properties of the plans.

  /**
   * The step at `k` of an index's children plan, when it copies a child
   * manifest: the child is served by the source, the copy is by digest and
   * not top-level, it is immediately followed by the child tally, an OCI
   * image manifest child's config and layers are the steps right before it,
   * and any other child has no blob copied right before it.
   */
  predicate ChildCopyOrdered(source: Source, repository: string, s: seq<Step>, k: int)
  {
    0 <= k < |s| && s[k].ManifestCopy? ==>
      && s[k].repository == repository && !s[k].top
      && Key(repository, s[k].reference) in source.manifests
      && k + 1 < |s| && s[k + 1] == Tally(OciManifestChild)
      && ChildBlobsBefore(source.manifests[Key(repository, s[k].reference)], repository, s, k)
  }

  /** The blob steps right before position `k` for a child manifest `child`. */
  predicate ChildBlobsBefore(child: Manifest, repository: string, s: seq<Step>, k: int)
    requires 0 <= k <= |s|
  {
    && (child.OciManifest? ==> |child.Blobs()| <= k && s[k - |child.Blobs()|..k] == BlobSteps(repository, child.Blobs()))
    && (!child.OciManifest? ==> k == 0 || !s[k - 1].BlobCopy?)
  }

  /** Every child manifest copy in `s` is ordered after its own blobs. */
  predicate AllChildCopiesOrdered(source: Source, repository: string, s: seq<Step>)
  {
    forall k :: 0 <= k < |s| ==> ChildCopyOrdered(source, repository, s, k)
  }

  /** In the children plan of an index, every child manifest copy is ordered after its own blobs. */
  lemma {:induction false} ChildrenOrdered(source: Source, repository: string, entries: seq<Descriptor>)
    ensures AllChildCopiesOrdered(source, repository, ChildrenPlan(source, repository, entries).steps)
    decreases |entries|
  {
    if entries != [] {
      ChildrenOrdered(source, repository, entries[1..]);
      if Key(repository, entries[0].digest) in source.manifests {
        ChildOrderedCons(source, repository, entries[0], ChildrenPlan(source, repository, entries[1..]).steps);
      }
    }
  }

  /** One child's steps in front of ordered steps are still ordered. */
  lemma ChildOrderedCons(source: Source, repository: string, entry: Descriptor, rest: seq<Step>)
    requires Key(repository, entry.digest) in source.manifests
    requires AllChildCopiesOrdered(source, repository, rest)
    ensures AllChildCopiesOrdered(source, repository, ChildPlan(source, repository, entry).steps + rest)
  {
    var c := ChildPlan(source, repository, entry).steps;
    ChildPlanEnds(source, repository, entry);
    forall k | 0 <= k < |c + rest|
      ensures ChildCopyOrdered(source, repository, c + rest, k)
    {
      if k < |c| {
        HeadOrdered(source, repository, entry, rest, k);
      } else {
        ShiftOrdered(source, repository, c, rest, k - |c|);
      }
    }
  }

  lemma ChildPlanEnds(source: Source, repository: string, entry: Descriptor)
    requires Key(repository, entry.digest) in source.manifests
    ensures var c := ChildPlan(source, repository, entry).steps;
      |c| > 0 && c[|c| - 1] == Tally(OciManifestChild)
  {
  }

  /** The positions of one child's own steps are ordered. */
  lemma HeadOrdered(source: Source, repository: string, entry: Descriptor, rest: seq<Step>, k: int)
    requires Key(repository, entry.digest) in source.manifests
    requires 0 <= k < |ChildPlan(source, repository, entry).steps|
    ensures ChildCopyOrdered(source, repository, ChildPlan(source, repository, entry).steps + rest, k)
  {
    var blobs := ChildBlobs(source, repository, entry);
    var copy := ChildCopy(source, repository, entry);
    var s := ChildPlan(source, repository, entry).steps + rest;
    assert s == blobs + [copy, Tally(OciManifestChild)] + rest;
    if k < |blobs| {
      assert s[k] == blobs[k];
    } else if k == |blobs| {
      CopyOrdered(source, repository, entry, blobs, s);
    } else {
      assert s[k] == Tally(OciManifestChild);
    }
  }

  /** The child's copy, right after its blobs and right before its tally, is ordered. */
  lemma CopyOrdered(source: Source, repository: string, entry: Descriptor, blobs: seq<Step>, s: seq<Step>)
    requires Key(repository, entry.digest) in source.manifests
    requires blobs == ChildBlobs(source, repository, entry)
    requires |blobs| + 2 <= |s| && s[..|blobs| + 2] == blobs + [ChildCopy(source, repository, entry), Tally(OciManifestChild)]
    ensures ChildCopyOrdered(source, repository, s, |blobs|)
  {
    var k := |blobs|;
    assert s[k] == s[..k + 2][k];
    assert s[k + 1] == s[..k + 2][k + 1];
    assert s[..k] == s[..k + 2][..k];
  }

  /** An ordered position of `rest` stays ordered behind a prefix that ends in a child tally. */
  lemma ShiftOrdered(source: Source, repository: string, c: seq<Step>, rest: seq<Step>, j: int)
    requires |c| > 0 && c[|c| - 1] == Tally(OciManifestChild)
    requires 0 <= j < |rest| && ChildCopyOrdered(source, repository, rest, j)
    ensures ChildCopyOrdered(source, repository, c + rest, |c| + j)
  {
    var s := c + rest;
    assert s[|c| + j] == rest[j];
    if rest[j].ManifestCopy? {
      assert s[|c| + j + 1] == rest[j + 1];
      ChildBlobsShift(source.manifests[Key(repository, rest[j].reference)], repository, c, rest, j);
    }
  }

  /** The blobs before a child's copy in `rest` are still right before it behind a prefix that ends in a child tally. */
  lemma ChildBlobsShift(child: Manifest, repository: string, c: seq<Step>, rest: seq<Step>, j: int)
    requires |c| > 0 && c[|c| - 1] == Tally(OciManifestChild)
    requires 0 <= j <= |rest| && ChildBlobsBefore(child, repository, rest, j)
    ensures ChildBlobsBefore(child, repository, c + rest, |c| + j)
  {
    if child.OciManifest? {
      SliceShift(c, rest, j - |child.Blobs()|, j);
    } else if j > 0 {
      assert (c + rest)[|c| + j - 1] == rest[j - 1];
    } else {
      assert (c + rest)[|c| - 1] == Tally(OciManifestChild);
    }
  }

  /** A stretch of `rest` is the same stretch, moved by `|c|`, of `c + rest`. */
  lemma SliceShift(c: seq<Step>, rest: seq<Step>, lo: int, hi: int)
    requires 0 <= lo <= hi <= |rest|
    ensures (c + rest)[|c| + lo..|c| + hi] == rest[lo..hi]
  {
  }

  /** No step of `s` copies a tag's manifest. */
  predicate NoTopCopy(s: seq<Step>)
  {
    forall k :: 0 <= k < |s| ==> !(s[k].ManifestCopy? && s[k].top)
  }

  /** An index's children plan copies no top-level manifest. */
  lemma ChildrenNoTop(source: Source, repository: string, entries: seq<Descriptor>)
    ensures NoTopCopy(ChildrenPlan(source, repository, entries).steps)
  {
    var s := ChildrenPlan(source, repository, entries).steps;
    ChildrenOrdered(source, repository, entries);
    forall k | 0 <= k < |s|
      ensures !(s[k].ManifestCopy? && s[k].top)
    {
      assert ChildCopyOrdered(source, repository, s, k);
    }
  }

  /** The media-type dispatch never copies a top-level manifest. */
  lemma DispatchNoTop(source: Source, repository: string, m: Manifest)
    ensures NoTopCopy(DispatchPlan(source, repository, m).steps)
  {
    match m
    case OciIndex(entries) =>
      ChildrenNoTop(source, repository, entries);
      TallyNoTop(OciIndexCount, ChildrenPlan(source, repository, entries).steps);
    case OciManifest(_, _) =>
      TallyNoTop(OciManifestRoot, BlobSteps(repository, m.Blobs()));
    case DockerManifest(_, _) =>
      TallyNoTop(DockerManifestCount, BlobSteps(repository, m.Blobs()));
    case Unrecognised(_) =>
  }

  /** A tally in front of steps that copy no top-level manifest copies none either. */
  lemma TallyNoTop(counter: Counter, t: seq<Step>)
    requires NoTopCopy(t)
    ensures NoTopCopy([Tally(counter)] + t)
  {
    var s := [Tally(counter)] + t;
    forall k | 0 < k < |s|
      ensures !(s[k].ManifestCopy? && s[k].top)
    {
      assert s[k] == t[k - 1];
    }
  }

  /**
   * The shape of a tag's plan when it does not throw: the manifest is copied
   * by tag as the very last step and nowhere else; an index tallies first and
   * processes its children in between; an OCI or Docker image manifest tallies
   * first, then copies its config (if any) and its layers in order; any other
   * media type is only copied.
   */
  lemma TagPlanShape(source: Source, repository: string, tag: string)
    requires !TagPlan(source, repository, tag).missing
    ensures Key(repository, tag) in source.manifests
    ensures var m := source.manifests[Key(repository, tag)];
      var s := TagPlan(source, repository, tag).steps;
      var top := ManifestCopy(repository, tag, m.MediaType(), true);
      && |s| > 0 && s[|s| - 1] == top
      && (m.OciIndex? ==> s == [Tally(OciIndexCount)] + ChildrenPlan(source, repository, m.manifests).steps + [top])
      && (m.OciManifest? ==> s == [Tally(OciManifestRoot)] + BlobSteps(repository, m.Blobs()) + [top])
      && (m.DockerManifest? ==> s == [Tally(DockerManifestCount)] + BlobSteps(repository, m.Blobs()) + [top])
      && (m.Unrecognised? ==> s == [top])
      && forall k :: 0 <= k < |s| - 1 ==> !(s[k].ManifestCopy? && s[k].top)
  {
    var m := source.manifests[Key(repository, tag)];
    var d := DispatchPlan(source, repository, m);
    var top := ManifestCopy(repository, tag, m.MediaType(), true);
    var s := TagPlan(source, repository, tag).steps;
    assert s == d.steps + [top];
    DispatchNoTop(source, repository, m);
    forall k | 0 <= k < |s| - 1
      ensures !(s[k].ManifestCopy? && s[k].top)
    {
      assert s[k] == d.steps[k];
      assert NoTopCopy(d.steps);
    }
  }

  /** A children plan ends in "manifest not found" exactly when the source lacks some child. */
  lemma {:induction false} ChildrenMissing(source: Source, repository: string, entries: seq<Descriptor>)
    ensures ChildrenPlan(source, repository, entries).missing <==>
      exists i :: 0 <= i < |entries| && Key(repository, entries[i].digest) !in source.manifests
    decreases |entries|
  {
    if entries != [] {
      ChildrenMissing(source, repository, entries[1..]);
      if Key(repository, entries[0].digest) in source.manifests {
        if exists i :: 0 <= i < |entries| && Key(repository, entries[i].digest) !in source.manifests {
          var i :| 0 <= i < |entries| && Key(repository, entries[i].digest) !in source.manifests;
          assert entries[1..][i - 1] == entries[i];
        }
        if exists j :: 0 <= j < |entries[1..]| && Key(repository, entries[1..][j].digest) !in source.manifests {
          var j :| 0 <= j < |entries[1..]| && Key(repository, entries[1..][j].digest) !in source.manifests;
          assert entries[1..][j] == entries[j + 1];
        }
      }
    }
  }

  /** The manifest copies among `steps`, in order. */
  function ManifestCopies(steps: seq<Step>): seq<Step>
  {
    if steps == [] then [] else (if steps[0].ManifestCopy? then [steps[0]] else []) + ManifestCopies(steps[1..])
  }

  /** The blob copies among `steps`, in order. */
  function BlobCopies(steps: seq<Step>): seq<Step>
  {
    if steps == [] then [] else (if steps[0].BlobCopy? then [steps[0]] else []) + BlobCopies(steps[1..])
  }

  /** The blob copies for an index entry's child: an OCI image manifest's config and layers, nothing for any other child. */
  function ChildBlobs(source: Source, repository: string, entry: Descriptor): seq<Step>
    requires Key(repository, entry.digest) in source.manifests
  {
    var child := source.manifests[Key(repository, entry.digest)];
    if child.OciManifest? then BlobSteps(repository, child.Blobs()) else []
  }

  /** The blob copies for every entry's child, entry by entry. */
  function ChildrenBlobs(source: Source, repository: string, entries: seq<Descriptor>): seq<Step>
    requires forall i :: 0 <= i < |entries| ==> Key(repository, entries[i].digest) in source.manifests
    decreases |entries|
  {
    if entries == [] then []
    else ChildBlobs(source, repository, entries[0]) + ChildrenBlobs(source, repository, entries[1..])
  }

  /** The copy of an index entry's child: by digest, with the child's media type, not top-level. */
  function ChildCopy(source: Source, repository: string, entry: Descriptor): Step
    requires Key(repository, entry.digest) in source.manifests
  {
    ManifestCopy(repository, entry.digest, source.manifests[Key(repository, entry.digest)].MediaType(), false)
  }

  /**
   * A children plan that does not throw copies every entry's child by its
   * digest, once and in entry order, copies exactly the config and layers
   * of the OCI image manifest children, entry by entry and once each, and no
   * blob for any other child, counts one processed child per entry, and
   * counts nothing else.
   */
  lemma ChildrenComplete(source: Source, repository: string, entries: seq<Descriptor>)
    requires !ChildrenPlan(source, repository, entries).missing
    ensures forall i :: 0 <= i < |entries| ==> Key(repository, entries[i].digest) in source.manifests
    ensures var copies := ManifestCopies(ChildrenPlan(source, repository, entries).steps);
      && |copies| == |entries|
      && forall i :: 0 <= i < |entries| ==> copies[i] == ChildCopy(source, repository, entries[i])
    ensures BlobCopies(ChildrenPlan(source, repository, entries).steps) == ChildrenBlobs(source, repository, entries)
    ensures Tallies(ChildrenPlan(source, repository, entries).steps, OciManifestChild) == |entries|
    ensures forall counter :: counter != OciManifestChild ==> Tallies(ChildrenPlan(source, repository, entries).steps, counter) == 0
  {
    ChildrenManifestCopies(source, repository, entries);
    ChildrenBlobCopies(source, repository, entries);
    ChildrenTallies(source, repository, entries);
  }

  /** A children plan that does not throw is the first entry's steps, then the rest's plan, which does not throw either. */
  lemma ChildrenUnfold(source: Source, repository: string, entries: seq<Descriptor>)
    requires entries != [] && !ChildrenPlan(source, repository, entries).missing
    ensures Key(repository, entries[0].digest) in source.manifests
    ensures !ChildrenPlan(source, repository, entries[1..]).missing
    ensures ChildrenPlan(source, repository, entries).steps ==
      ChildPlan(source, repository, entries[0]).steps + ChildrenPlan(source, repository, entries[1..]).steps
  {
  }

  /** The manifest copies of a children plan that does not throw: one per entry, by digest, in entry order. */
  lemma {:induction false} ChildrenManifestCopies(source: Source, repository: string, entries: seq<Descriptor>)
    requires !ChildrenPlan(source, repository, entries).missing
    ensures forall i :: 0 <= i < |entries| ==> Key(repository, entries[i].digest) in source.manifests
    ensures var copies := ManifestCopies(ChildrenPlan(source, repository, entries).steps);
      && |copies| == |entries|
      && forall i :: 0 <= i < |entries| ==> copies[i] == ChildCopy(source, repository, entries[i])
    decreases |entries|
  {
    if entries != [] {
      var rest := entries[1..];
      var c := ChildPlan(source, repository, entries[0]).steps;
      var r := ChildrenPlan(source, repository, rest).steps;
      ChildrenUnfold(source, repository, entries);
      ChildrenManifestCopies(source, repository, rest);
      ChildPlanCounts(source, repository, entries[0]);
      ManifestCopiesAppend(c, r);
      var copies := ManifestCopies(c + r);
      forall i | 0 <= i < |entries|
        ensures Key(repository, entries[i].digest) in source.manifests
        ensures copies[i] == ChildCopy(source, repository, entries[i])
      {
        if i > 0 {
          assert entries[i] == rest[i - 1];
        }
      }
    }
  }

  /** The blob copies of a children plan that does not throw: each OCI image manifest child's, entry by entry. */
  lemma {:induction false} ChildrenBlobCopies(source: Source, repository: string, entries: seq<Descriptor>)
    requires !ChildrenPlan(source, repository, entries).missing
    ensures forall i :: 0 <= i < |entries| ==> Key(repository, entries[i].digest) in source.manifests
    ensures BlobCopies(ChildrenPlan(source, repository, entries).steps) == ChildrenBlobs(source, repository, entries)
    decreases |entries|
  {
    ChildrenMissing(source, repository, entries);
    if entries != [] {
      var c := ChildPlan(source, repository, entries[0]).steps;
      var r := ChildrenPlan(source, repository, entries[1..]).steps;
      ChildrenUnfold(source, repository, entries);
      ChildrenBlobCopies(source, repository, entries[1..]);
      ChildPlanCounts(source, repository, entries[0]);
      BlobCopiesAppend(c, r);
    }
  }

  /** A children plan that does not throw counts one processed child per entry and nothing else. */
  lemma {:induction false} ChildrenTallies(source: Source, repository: string, entries: seq<Descriptor>)
    requires !ChildrenPlan(source, repository, entries).missing
    ensures Tallies(ChildrenPlan(source, repository, entries).steps, OciManifestChild) == |entries|
    ensures forall counter :: counter != OciManifestChild ==> Tallies(ChildrenPlan(source, repository, entries).steps, counter) == 0
    decreases |entries|
  {
    if entries != [] {
      var c := ChildPlan(source, repository, entries[0]).steps;
      var r := ChildrenPlan(source, repository, entries[1..]).steps;
      ChildrenUnfold(source, repository, entries);
      ChildrenTallies(source, repository, entries[1..]);
      ChildPlanCounts(source, repository, entries[0]);
      forall counter
        ensures Tallies(c + r, counter) == Tallies(c, counter) + Tallies(r, counter)
      {
        TalliesAppend(c, r, counter);
      }
    }
  }

  /** One entry's steps: the child copied once by digest, one processed child counted, nothing else counted. */
  lemma ChildPlanCounts(source: Source, repository: string, entry: Descriptor)
    requires Key(repository, entry.digest) in source.manifests
    ensures var c := ChildPlan(source, repository, entry).steps;
      && ManifestCopies(c) == [ChildCopy(source, repository, entry)]
      && BlobCopies(c) == ChildBlobs(source, repository, entry)
      && Tallies(c, OciManifestChild) == 1
      && forall counter :: counter != OciManifestChild ==> Tallies(c, counter) == 0
  {
    var blobs := ChildBlobs(source, repository, entry);
    assert ChildPlan(source, repository, entry).steps == blobs + [ChildCopy(source, repository, entry), Tally(OciManifestChild)];
    CopyThenTally(blobs, ChildCopy(source, repository, entry));
  }

  /** Blob copies, one manifest copy, then the child tally: one copy and one processed child. */
  lemma CopyThenTally(blobs: seq<Step>, copy: Step)
    requires forall k :: 0 <= k < |blobs| ==> blobs[k].BlobCopy?
    requires copy.ManifestCopy?
    ensures var c := blobs + [copy, Tally(OciManifestChild)];
      && ManifestCopies(c) == [copy]
      && BlobCopies(c) == blobs
      && Tallies(c, OciManifestChild) == 1
      && forall counter :: counter != OciManifestChild ==> Tallies(c, counter) == 0
  {
    var tail := [copy, Tally(OciManifestChild)];
    CopyTally(copy);
    BlobsOnly(blobs);
    ManifestCopiesAppend(blobs, tail);
    BlobCopiesAppend(blobs, tail);
    assert blobs + [] == blobs;
    forall counter
      ensures Tallies(blobs + tail, counter) == Tallies(tail, counter)
    {
      TalliesAppend(blobs, tail, counter);
    }
  }

  /** A manifest copy then the child tally: that copy, no blob, one processed child. */
  lemma CopyTally(copy: Step)
    requires copy.ManifestCopy?
    ensures var tail := [copy, Tally(OciManifestChild)];
      && ManifestCopies(tail) == [copy]
      && BlobCopies(tail) == []
      && Tallies(tail, OciManifestChild) == 1
      && forall counter :: counter != OciManifestChild ==> Tallies(tail, counter) == 0
  {
    var last := [Tally(OciManifestChild)];
    var tail := [copy, Tally(OciManifestChild)];
    assert tail[1..] == last && last[1..] == [];
    assert ManifestCopies(last) == [] && BlobCopies(last) == [];
  }

  /** Blob copies alone copy no manifest and count nothing. */
  lemma {:induction false} BlobsOnly(steps: seq<Step>)
    requires forall k :: 0 <= k < |steps| ==> steps[k].BlobCopy?
    ensures ManifestCopies(steps) == []
    ensures BlobCopies(steps) == steps
    ensures forall counter :: Tallies(steps, counter) == 0
    decreases |steps|
  {
    if steps != [] {
      assert forall k :: 0 <= k < |steps[1..]| ==> steps[1..][k] == steps[k + 1];
      BlobsOnly(steps[1..]);
      assert steps == [steps[0]] + steps[1..];
    }
  }

  lemma {:induction false} ManifestCopiesAppend(a: seq<Step>, b: seq<Step>)
    ensures ManifestCopies(a + b) == ManifestCopies(a) + ManifestCopies(b)
    decreases |a|
  {
    if a == [] {
      assert a + b == b;
    } else {
      assert (a + b)[0] == a[0] && (a + b)[1..] == a[1..] + b;
      ManifestCopiesAppend(a[1..], b);
    }
  }

  lemma {:induction false} BlobCopiesAppend(a: seq<Step>, b: seq<Step>)
    ensures BlobCopies(a + b) == BlobCopies(a) + BlobCopies(b)
    decreases |a|
  {
    if a == [] {
      assert a + b == b;
    } else {
      assert (a + b)[0] == a[0] && (a + b)[1..] == a[1..] + b;
      BlobCopiesAppend(a[1..], b);
    }
  }

  lemma {:induction false} TalliesAppend(a: seq<Step>, b: seq<Step>, counter: Counter)
    ensures Tallies(a + b, counter) == Tallies(a, counter) + Tallies(b, counter)
    decreases |a|
  {
    if a == [] {
      assert a + b == b;
    } else {
      assert (a + b)[0] == a[0] && (a + b)[1..] == a[1..] + b;
      TalliesAppend(a[1..], b, counter);
    }
  }

  /** A tag's plan throws "manifest not found" exactly when its manifest, or a child of its index, is missing. */
  lemma TagPlanMissing(source: Source, repository: string, tag: string)
    ensures TagPlan(source, repository, tag).missing <==>
      || Key(repository, tag) !in source.manifests
      || (var m := source.manifests[Key(repository, tag)];
          m.OciIndex? && exists i :: 0 <= i < |m.manifests| && Key(repository, m.manifests[i].digest) !in source.manifests)
  {
    if Key(repository, tag) in source.manifests {
      var m := source.manifests[Key(repository, tag)];
      if m.OciIndex? {
        ChildrenMissing(source, repository, m.manifests);
      }
    }
  }

  /** Running the first `k` images is running the first, then the next `k - 1` unless the first threw. */
  lemma ExecImagesPrefix(env: Env, w: World, images: seq<Image>, k: nat)
    requires 0 < k <= |images|
    ensures ExecImages(env, w, images[..k]) ==
      (var o := ExecPlan(env, w, ImagePlan(env.source, images[0]));
       if o.failure.Some? then o else ExecImages(env, o.world, images[1..][..k - 1]))
  {
    assert images[..k][0] == images[0] && images[..k][1..] == images[1..][..k - 1];
  }

  /**
   * The early-stop rule: the backup runs whole images, in order, up to and
   * including the first one after which the run has thrown or `total` exceeds
   * `MaxTotal`, and starts no image after it. The check comes only after all
   * tags of an image, so the image that crosses the threshold is finished.
   */
  lemma {:induction false} BackupEarlyStop(env: Env, w: World, images: seq<Image>, p: nat)
    requires p <= |images|
    requires forall k :: 0 < k < p ==>
      ExecImages(env, w, images[..k]).failure.None? && ExecImages(env, w, images[..k]).world.stats.total <= MaxTotal
    requires p == |images| ||
      (p > 0 && (ExecImages(env, w, images[..p]).failure.Some? || ExecImages(env, w, images[..p]).world.stats.total > MaxTotal))
    ensures Backup(env, w, images) == ExecImages(env, w, images[..p])
    decreases |images|
  {
    if images == [] {
      assert images[..p] == [];
    } else if p > 0 {
      var o := ExecPlan(env, w, ImagePlan(env.source, images[0]));
      ExecImagesPrefix(env, w, images, p);
      if o.failure.None? {
        if p == 1 {
          assert images[1..][..0] == [];
          if o.world.stats.total <= MaxTotal {
            assert images[1..] == [];
          }
        } else {
          EarlyStopRest(env, w, images, p);
          BackupEarlyStop(env, o.world, images[1..], p - 1);
        }
      }
    }
  }

  /** After a first image that neither threw nor crossed the threshold, the early-stop position moves back by one. */
  lemma EarlyStopRest(env: Env, w: World, images: seq<Image>, p: nat)
    requires 1 < p <= |images|
    requires forall k :: 0 < k < p ==>
      ExecImages(env, w, images[..k]).failure.None? && ExecImages(env, w, images[..k]).world.stats.total <= MaxTotal
    requires p == |images| ||
      ExecImages(env, w, images[..p]).failure.Some? || ExecImages(env, w, images[..p]).world.stats.total > MaxTotal
    ensures var o := ExecPlan(env, w, ImagePlan(env.source, images[0]));
      && o.failure.None? && o.world.stats.total <= MaxTotal
      && (forall k :: 0 < k < p - 1 ==>
        ExecImages(env, o.world, images[1..][..k]).failure.None? && ExecImages(env, o.world, images[1..][..k]).world.stats.total <= MaxTotal)
      && (p - 1 == |images[1..]| ||
        ExecImages(env, o.world, images[1..][..p - 1]).failure.Some? || ExecImages(env, o.world, images[1..][..p - 1]).world.stats.total > MaxTotal)
  {
    var o := ExecPlan(env, w, ImagePlan(env.source, images[0]));
    ExecImagesPrefix(env, w, images, 1);
    assert images[1..][..0] == [];
    ExecImagesPrefix(env, w, images, p);
    forall k | 0 < k < p - 1
      ensures ExecImages(env, o.world, images[1..][..k]).failure.None?
      ensures ExecImages(env, o.world, images[1..][..k]).world.stats.total <= MaxTotal
    {
      ExecImagesPrefix(env, w, images, k + 1);
    }
  }

  /** The flattened tags are exactly the tags of the versions, in order. */
  lemma {:induction false} FlatTagsContents(versions: seq<PackageVersion>, tag: string)
    ensures tag in FlatTags(versions) <==> exists i :: 0 <= i < |versions| && tag in versions[i].tags
    decreases |versions|
  {
    if versions != [] {
      var init := versions[..|versions| - 1];
      FlatTagsContents(init, tag);
      if tag in FlatTags(init) {
        var i :| 0 <= i < |init| && tag in init[i].tags;
        assert versions[i] == init[i];
      }
      if exists i :: 0 <= i < |versions| && tag in versions[i].tags {
        var i :| 0 <= i < |versions| && tag in versions[i].tags;
        if i < |init| {
          assert init[i] == versions[i];
        }
      }
    }
  }
}
