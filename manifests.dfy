/**
 * The descriptor model of the OCI Image Format Specification v1.0.1
 * ("Descriptor", "Image Index" and "Image Manifest") and of the Docker
 * image manifest v2, schema 2, as the distribution client uses them.
 */
module Manifests {
  import opened Common

  /** The media types the client recognises. */
  const OciImageIndexV1: string := "application/vnd.oci.image.index.v1+json"
  const OciImageManifestV1: string := "application/vnd.oci.image.manifest.v1+json"
  const OciImageConfigV1: string := "application/vnd.oci.image.config.v1+json"
  const DockerDistributionManifestV2: string := "application/vnd.docker.distribution.manifest.v2+json"
  const DockerContainerImageV1: string := "application/vnd.docker.container.image.v1+json"

  /** The three manifest media types the replication walk dispatches on. */
  predicate IsManifestMediaType(mediaType: string)
  {
    mediaType == OciImageIndexV1 || mediaType == OciImageManifestV1 || mediaType == DockerDistributionManifestV2
  }

  /** A media type the walk has no branch for (a Docker manifest list, a schema 1 manifest, ...). */
  type OtherMediaType = s: string | !IsManifestMediaType(s) witness ""

  /** A reference to content: its digest, media type and byte length. */
  datatype Descriptor = Descriptor(digest: string, mediaType: string, size: nat)

  /**
   * A manifest as fetched from a registry, discriminated by its `mediaType`.
   * Index entries carry a platform in the wire format; the walk only reads
   * their digest, so the platform is not kept.
   */
  datatype Manifest =
    | OciIndex(manifests: seq<Descriptor>)
    | OciManifest(config: Option<Descriptor>, layers: seq<Descriptor>)
    | DockerManifest(config: Option<Descriptor>, layers: seq<Descriptor>)
    | Unrecognised(mediaType: OtherMediaType)
  {
    /** The `mediaType` field of the manifest document. */
    function MediaType(): (t: string)
      ensures IsManifestMediaType(t) <==> !Unrecognised?
      ensures t == OciImageIndexV1 <==> OciIndex?
      ensures t == OciImageManifestV1 <==> OciManifest?
      ensures t == DockerDistributionManifestV2 <==> DockerManifest?
    {
      match this
      case OciIndex(_) => OciImageIndexV1
      case OciManifest(_, _) => OciImageManifestV1
      case DockerManifest(_, _) => DockerDistributionManifestV2
      case Unrecognised(t) => t
    }

    /** The blobs an image manifest references: its config (when present), then its layers. */
    function Blobs(): (ds: seq<Descriptor>)
      ensures (OciManifest? || DockerManifest?) ==>
        |ds| == |layers| + (if config.Some? then 1 else 0) &&
        ds[|ds| - |layers|..] == layers &&
        (config.Some? ==> ds[0] == config.value)
      ensures (OciIndex? || Unrecognised?) ==> ds == []
    {
      match this
      case OciManifest(config, layers) => (if config.Some? then [config.value] else []) + layers
      case DockerManifest(config, layers) => (if config.Some? then [config.value] else []) + layers
      case _ => []
    }
  }
}
