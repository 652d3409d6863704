/**
 * The decisions of the `list` action: which MCAI worker SDK version a manifest depends
 * on, and which well-known base image a Dockerfile builds from.
 */
module ListAction {
  import opened Wrappers
  import opened Dockerfile

  // ---------------------------------------------------------------- SDK version

  /** A manifest dependency: a bare version string, or a table with optional version and path. */
  datatype Dependency = Simple(version: string) | Detailed(detailedVersion: Option<string>, path: Option<string>)

  const SdkCrate: string := "mcai_worker_sdk"

  /** What is shown for a dependency: its version, else its path, else the empty string. */
  function DependencyVersion(d: Dependency): (v: string)
    ensures d.Simple? ==> v == d.version
    ensures d.Detailed? && d.detailedVersion.Some? ==> v == d.detailedVersion.value
    ensures d.Detailed? && d.detailedVersion.None? && d.path.Some? ==> v == d.path.value
    ensures d.Detailed? && d.detailedVersion.None? && d.path.None? ==> v == ""
  {
    match d
    case Simple(version) => version
    case Detailed(version, path) =>
      if version.Some? then version.value else path.UnwrapOr("")
  }

  /** Index of the first dependency named "mcai_worker_sdk", in the manifest's iteration order. */
  function FirstSdkDependency(dependencies: seq<(string, Dependency)>): (r: Option<nat>)
    ensures r.Some? ==> r.value < |dependencies| && dependencies[r.value].0 == SdkCrate
    ensures r.Some? ==> forall j :: 0 <= j < r.value ==> dependencies[j].0 != SdkCrate
    ensures r.None? ==> forall j :: 0 <= j < |dependencies| ==> dependencies[j].0 != SdkCrate
    decreases |dependencies|
  {
    if dependencies == [] then None
    else if dependencies[0].0 == SdkCrate then Some(0)
    else match FirstSdkDependency(dependencies[1..])
      case None => None
      case Some(k) => Some(k + 1)
  }

  /**
   * `mcai_worker_sdk_version`: the version of the first dependency named
   * "mcai_worker_sdk"; `None` exactly when no dependency has that name.
   */
  function McaiWorkerSdkVersion(dependencies: seq<(string, Dependency)>): (r: Option<string>)
    ensures r.None? <==> forall i :: 0 <= i < |dependencies| ==> dependencies[i].0 != SdkCrate
    ensures r.Some? <==> FirstSdkDependency(dependencies).Some?
    ensures r.Some? ==> r.value == DependencyVersion(dependencies[FirstSdkDependency(dependencies).value].1)
  {
    match FirstSdkDependency(dependencies)
    case None => None
    case Some(i) => Some(DependencyVersion(dependencies[i].1))
  }

  // ---------------------------------------------------------------- base image

  /** The images of the `FROM` instructions, in file order. */
  function FromImages(instructions: Instructions): seq<ImageRef>
    decreases |instructions|
  {
    if instructions == [] then []
    else (if instructions[0].From? then [instructions[0].imageParsed] else [])
         + FromImages(instructions[1..])
  }

  /** An image is listed exactly when some `FROM` instruction names it. */
  lemma {:induction false} FromImagesMembers(instructions: Instructions, image: ImageRef)
    ensures image in FromImages(instructions) <==> From(image) in instructions
    decreases |instructions|
  {
    if instructions != [] {
      FromImagesMembers(instructions[1..], image);
      assert instructions == [instructions[0]] + instructions[1..];
    }
  }

  /** Images are listed in file order: the list of a concatenation is the concatenation of the lists. */
  lemma {:induction false} FromImagesAppend(a: Instructions, b: Instructions)
    ensures FromImages(a + b) == FromImages(a) + FromImages(b)
    decreases |a|
  {
    if a == [] {
      assert a + b == b;
    } else {
      assert (a + b)[0] == a[0];
      assert (a + b)[1..] == a[1..] + b;
      FromImagesAppend(a[1..], b);
    }
  }

  /** The base images the `list` action recognises. */
  const ReferenceImages: seq<string> := [
    "rust",
    "ubuntu",
    "debian",
    "mediacloudai/rs_command_line_worker",
    "mediacloudai/py_mcai_worker_sdk",
    "mediacloudai/c_mcai_worker_sdk"
  ]

  /** The label shown for a reference image; only reference images have one. */
  function ReferenceLabel(image: string): string
    requires image in ReferenceImages
  {
    match image
    case "rust" => "Rust"
    case "ubuntu" => "Ubuntu"
    case "debian" => "Debian"
    case "mediacloudai/rs_command_line_worker" => "Command Line"
    case "mediacloudai/py_mcai_worker_sdk" => "Python MCAI SDK"
    case "mediacloudai/c_mcai_worker_sdk" => "C MCAI SDK"
    case _ => assert false; ""
  }

  /** The label table, entry by entry, and distinct images get distinct labels. */
  lemma ReferenceLabels(a: string, b: string)
    requires a in ReferenceImages && b in ReferenceImages
    ensures ReferenceLabel("rust") == "Rust" && ReferenceLabel("ubuntu") == "Ubuntu"
    ensures ReferenceLabel("debian") == "Debian"
    ensures ReferenceLabel("mediacloudai/rs_command_line_worker") == "Command Line"
    ensures ReferenceLabel("mediacloudai/py_mcai_worker_sdk") == "Python MCAI SDK"
    ensures ReferenceLabel("mediacloudai/c_mcai_worker_sdk") == "C MCAI SDK"
    ensures ReferenceLabel(a) == ReferenceLabel(b) ==> a == b
  {
  }

  /** Index of the first image whose name is a reference image. */
  function FirstReference(images: seq<ImageRef>): (r: Option<nat>)
    ensures r.Some? ==> r.value < |images| && images[r.value].image in ReferenceImages
    ensures r.Some? ==> forall j :: 0 <= j < r.value ==> images[j].image !in ReferenceImages
    ensures r.None? ==> forall j :: 0 <= j < |images| ==> images[j].image !in ReferenceImages
    decreases |images|
  {
    if images == [] then None
    else if images[0].image in ReferenceImages then Some(0)
    else match FirstReference(images[1..])
      case None => None
      case Some(k) => Some(k + 1)
  }

  /** `"<label> <tag>"`, the tag defaulting to "latest". */
  function ImageDescription(image: ImageRef): string
    requires image.image in ReferenceImages
  {
    ReferenceLabel(image.image) + " " + image.tag.UnwrapOr("latest")
  }

  /**
   * `docker_information`: the description of the first `FROM` image that is a reference
   * image; later `FROM` instructions are ignored.
   */
  function DockerInformation(instructions: Instructions): Option<string> {
    var images := FromImages(instructions);
    match FirstReference(images)
    case None => None
    case Some(k) => Some(ImageDescription(images[k]))
  }

  /**
   * `docker_information` is `None` exactly when no `FROM` instruction names a reference
   * image; otherwise it describes the first `FROM` image that does, as its label, a
   * space, and its tag (or "latest").
   */
  lemma DockerInformationSpec(instructions: Instructions)
    ensures DockerInformation(instructions).None? <==>
      forall image :: From(image) in instructions ==> image.image !in ReferenceImages
    ensures DockerInformation(instructions).Some? ==>
      exists k :: 0 <= k < |FromImages(instructions)| &&
        var image := FromImages(instructions)[k];
        image.image in ReferenceImages &&
        DockerInformation(instructions).value == ReferenceLabel(image.image) + " " + image.tag.UnwrapOr("latest") &&
        forall j :: 0 <= j < k ==> FromImages(instructions)[j].image !in ReferenceImages
  {
    var images := FromImages(instructions);
    forall image | From(image) in instructions
      ensures image in images
    {
      FromImagesMembers(instructions, image);
    }
    forall image | image in images
      ensures From(image) in instructions
    {
      FromImagesMembers(instructions, image);
    }
  }
}
