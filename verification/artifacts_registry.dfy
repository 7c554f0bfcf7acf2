/** The Artifact Registry client (scheduler/googlecloudplatform/
    artifacts_registry.py): splitting a Docker URI and the tag path whose
    existence decides whether an image has been built. */
module ArtifactsRegistry {
  import opened Wrappers
  import opened Strings

  const DockerSeparators: set<char> := {'/', ':'}

  const DefaultTag := "latest"

  datatype ArtifactsRegistryClient = ArtifactsRegistryClient(projectId: string, region: string, repositoryName: string)

  /** `*_, container_name, _ = ...` on fewer than two pieces raises `ValueError`. */
  datatype UnpackError = NotEnoughValues(pieces: nat)

  /** `split_docker_uri`: `re.split("/|:", uri)`, a flat list of pieces. None
      of them holds a separator, there is one more piece than separators,
      and putting the separators back restores the URI. */
  function SplitDockerUri(uri: string): (pieces: seq<string>)
    ensures |pieces| == CountIn(uri, DockerSeparators) + 1
    ensures forall i :: 0 <= i < |pieces| ==> '/' !in pieces[i] && ':' !in pieces[i]
    ensures Interleave(pieces, SeparatorsOf(uri, DockerSeparators)) == uri
  {
    InterleaveSplitOn(uri, DockerSeparators);
    var pieces := SplitOn(uri, DockerSeparators);
    assert forall i :: 0 <= i < |pieces| ==> NoneIn(pieces[i], DockerSeparators);
    pieces
  }

  /** The container name: the second-to-last piece. It exists exactly when
      the URI has at least one separator. */
  function ContainerName(uri: string): (r: Result<string, UnpackError>)
    ensures r.Success? <==> CountIn(uri, DockerSeparators) >= 1
    ensures r.Success? ==> r.value == SplitDockerUri(uri)[|SplitDockerUri(uri)| - 2]
    ensures r.Success? ==> '/' !in r.value && ':' !in r.value
  {
    var pieces := SplitDockerUri(uri);
    if |pieces| < 2 then Failure(NotEnoughValues(|pieces|)) else Success(pieces[|pieces| - 2])
  }

  /** The ten `/`-separated components of a tag's resource name. */
  function TagPathParts(client: ArtifactsRegistryClient, containerName: string, tag: string): seq<string> {
    ["projects", client.projectId, "locations", client.region,
     "repositories", client.repositoryName, "packages", containerName, "tags", tag]
  }

  /** The resource name of one tag of one package: the f-string
      `projects/{p}/locations/{r}/repositories/{repo}/packages/{name}/tags/{tag}`,
      which is its ten components joined with `/`. When no component holds a
      `/`, the path splits back into them, so the package and the tag can be
      read off it. */
  function TagPath(client: ArtifactsRegistryClient, containerName: string, tag: string): (path: string)
    ensures var parts := TagPathParts(client, containerName, tag);
      (forall i :: 0 <= i < 10 ==> NoneIn(parts[i], {'/'})) ==> SplitOn(path, {'/'}) == parts
    ensures var parts := TagPathParts(client, containerName, tag);
      (forall i :: 0 <= i < 10 ==> NoneIn(parts[i], {'/'})) ==> CountIn(path, {'/'}) == 9
  {
    var parts := TagPathParts(client, containerName, tag);
    TagPathSplits(parts);
    Join(parts, '/')
  }

  lemma {:induction false} TagPathSplits(parts: seq<string>)
    requires |parts| == 10
    ensures (forall i :: 0 <= i < 10 ==> NoneIn(parts[i], {'/'})) ==> SplitOn(Join(parts, '/'), {'/'}) == parts
  {
    if forall i :: 0 <= i < 10 ==> NoneIn(parts[i], {'/'}) {
      SplitOnJoin(parts, '/');
    }
  }

  /** The tag path that `check_if_container_exists` looks up, or the unpack
      error; `tagExists` stands for the registry's `get_tag` call. */
  function CheckIfContainerExists(
    client: ArtifactsRegistryClient, containerUri: string, tag: string, tagExists: string -> bool)
    : (r: Result<bool, UnpackError>)
    ensures r.Success? <==> ContainerName(containerUri).Success?
    ensures r.Success? ==> r.value == tagExists(TagPath(client, ContainerName(containerUri).value, tag))
  {
    var name :- ContainerName(containerUri);
    Success(tagExists(TagPath(client, name, tag)))
  }
}
