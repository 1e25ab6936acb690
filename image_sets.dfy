/**
  `get_imageset_spec`: the operator's ImageSet resource, which pins every
  Calico image the operator deploys to the digest of the locally built image.
  The digest lookup (`docker manifest inspect` on the build of each component)
  is the parameter `digestOf`, and the resource is kept as a record rather than
  as the JSON text the source serialises it to.
 */
module ImageSets {
  import opened Text

  /** One entry of `spec.images`. */
  datatype ImageEntry = ImageEntry(image: string, digest: string)

  /** The ImageSet resource. */
  datatype ImageSet = ImageSet(apiVersion: string, kind: string, name: string, images: seq<ImageEntry>)

  /** The components whose images the operator accepts, in the order the
      test lists them. */
  const CalicoComponents: seq<string> := [
    "node",
    "cni",
    "typha",
    "kube-controllers",
    "csi",
    "apiserver",
    "pod2daemon-flexvol",
    "key-cert-provisioner",
    "node-driver-registrar"
  ]

  /** The locally built Calico images: `calico-node`, `calico-cni`, and so on. */
  const CalicoImages: seq<string> :=
    seq(|CalicoComponents|, k requires 0 <= k < |CalicoComponents| => "calico-" + CalicoComponents[k])

  /** The operator image, built with its own version. */
  const OperatorImage: string := "calico-tigera-operator"

  /** The upstream names of the Calico images: `calico/node`, `calico/cni`, and so on. */
  const UpstreamCalicoImages: seq<string> :=
    seq(|CalicoComponents|, k requires 0 <= k < |CalicoComponents| => "calico/" + CalicoComponents[k])

  /** The upstream name of the operator image. */
  const UpstreamOperatorImage: string := "tigera/operator"

  /** `list(zip(xs, ys))`: pairs of equal positions, as long as the shorter list. */
  function Zip<A, B>(xs: seq<A>, ys: seq<B>): (r: seq<(A, B)>)
    ensures |r| == if |xs| <= |ys| then |xs| else |ys|
    ensures forall k :: 0 <= k < |r| ==> r[k] == (xs[k], ys[k])
  {
    if xs == [] || ys == [] then [] else [(xs[0], ys[0])] + Zip(xs[1..], ys[1..])
  }

  /** `[x] * n`. */
  function Repeat<T>(x: T, n: nat): (r: seq<T>)
    ensures |r| == n
    ensures forall k :: 0 <= k < n ==> r[k] == x
  {
    if n == 0 then [] else [x] + Repeat(x, n - 1)
  }

  /** The upstream name of a locally built image: `calico-tigera-` becomes
      `tigera/` first, then every remaining `calico-` becomes `calico/`. An
      image without `calico-` in it keeps its name. */
  function Rename(image: string): (r: string)
    ensures !Occurs(image, "calico-") ==> r == image
  {
    NoOccurrenceExtension(image, "calico-", "calico-tigera-");
    Replace(Replace(image, "calico-tigera-", "tigera/"), "calico-", "calico/")
  }

  /** `calico-X` becomes `calico/X` when X neither holds `calico-` nor starts
      with `tigera-`. */
  lemma RenameCalicoComponent(x: string)
    requires !Occurs(x, "calico-") && !("tigera-" <= x)
    ensures Rename("calico-" + x) == "calico/" + x
  {
    var p := "calico-";
    var pat := "calico-tigera-";
    forall i | 0 <= i < |p|
      ensures !(pat <= (p + x)[i..])
    {
      var s := (p + x)[i..];
      if i == 0 {
        assert pat == p + "tigera-";
        PrefixCancel(p, "tigera-", x);
      } else if i == 4 {
        assert s[1] == 'o' != pat[1];
      } else if i != 0 {
        assert s[0] == p[i] != 'c';
      }
    }
    ReplaceSkip(p, x, pat, "tigera/");
    NoOccurrenceExtension(x, p, pat);
    ReplaceFront(p, x, "calico/");
  }

  /** `calico-tigera-X` becomes `tigera/X` when X holds no `calico-`. */
  lemma RenameOperatorComponent(x: string)
    requires !Occurs(x, "calico-")
    ensures Rename("calico-tigera-" + x) == "tigera/" + x
  {
    var pat := "calico-tigera-";
    ReplaceFront(pat, x, "tigera/");
    NoOccurrenceExtension(x, "calico-", pat);
    var p := "tigera/";
    forall i | 0 <= i < |p|
      ensures !("calico-" <= (p + x)[i..])
    {
      assert (p + x)[i..][0] == p[i] != 'c';
    }
    ReplaceSkip(p, x, "calico-", "calico/");
  }

  /** Every listed Calico image gets its upstream name. */
  lemma RenameCalicoImages()
    ensures |CalicoImages| == |UpstreamCalicoImages|
    ensures forall k :: 0 <= k < |CalicoImages| ==> Rename(CalicoImages[k]) == UpstreamCalicoImages[k]
  {
    forall k | 0 <= k < |CalicoImages|
      ensures Rename(CalicoImages[k]) == UpstreamCalicoImages[k]
    {
      var x := CalicoComponents[k];
      ComponentShape(k);
      if 'a' !in x {
        RenameLacking(x, 'a');
      } else {
        RenameLacking(x, 'c');
      }
    }
  }

  /** Proof step for `RenameCalicoImages`: each listed component lacks `a` or
      `c`, and none starts with `tigera-`. */
  lemma ComponentShape(k: nat)
    requires k < |CalicoComponents|
    ensures 'a' !in CalicoComponents[k] || 'c' !in CalicoComponents[k]
    ensures |CalicoComponents[k]| < 7 || CalicoComponents[k][0] != 't'
  {
  }

  /** The operator image gets its upstream name. */
  lemma RenameOperatorImage()
    ensures Rename(OperatorImage) == UpstreamOperatorImage
  {
    assert OperatorImage == "calico-tigera-" + "operator";
    assert UpstreamOperatorImage == "tigera/" + "operator";
    MissingCharNoOccurrence("operator", "calico-", 'c');
    RenameOperatorComponent("operator");
  }

  /** A component name lacking some letter of `calico-`, and not starting
      with `t`, is renamed by the second replacement only. */
  lemma RenameLacking(x: string, c: char)
    requires c in "calico-" && c !in x
    requires |x| < 7 || x[0] != 't'
    ensures Rename("calico-" + x) == "calico/" + x
  {
    MissingCharNoOccurrence(x, "calico-", c);
    RenameCalicoComponent(x);
  }

  /** The ImageSet the test applies: named `calico-<calico version>`, with one
      entry per listed image carrying the Calico version's digest, in the
      listed order, and the operator image with the operator version's digest
      last. Every entry carries the image's upstream name. */
  method GetImageSetSpec(operatorVersion: string, calicoVersion: string, digestOf: (string, string) -> string)
    returns (spec: ImageSet)
    ensures spec.apiVersion == "operator.tigera.io/v1" && spec.kind == "ImageSet"
    ensures spec.name == "calico-" + calicoVersion
    ensures |spec.images| == |CalicoImages| + 1
    ensures forall k :: 0 <= k < |CalicoImages| ==>
      spec.images[k] == ImageEntry(UpstreamCalicoImages[k], digestOf(CalicoImages[k], calicoVersion))
    ensures spec.images[|CalicoImages|] == ImageEntry(UpstreamOperatorImage, digestOf(OperatorImage, operatorVersion))
  {
    spec := ImageSet("operator.tigera.io/v1", "ImageSet", "calico-" + calicoVersion, []);
    var images := Zip(CalicoImages, Repeat(calicoVersion, |CalicoImages|));
    images := images + [(OperatorImage, operatorVersion)];
    for i := 0 to |images|
      invariant spec.apiVersion == "operator.tigera.io/v1" && spec.kind == "ImageSet"
      invariant spec.name == "calico-" + calicoVersion
      invariant |spec.images| == i
      invariant forall k :: 0 <= k < i ==>
        spec.images[k] == ImageEntry(Rename(images[k].0), digestOf(images[k].0, images[k].1))
    {
      var (image, version) := images[i];
      var digest := digestOf(image, version);
      var origImage := Replace(image, "calico-tigera-", "tigera/");
      origImage := Replace(origImage, "calico-", "calico/");
      spec := spec.(images := spec.images + [ImageEntry(origImage, digest)]);
    }
    RenameCalicoImages();
    RenameOperatorImage();
  }
}
