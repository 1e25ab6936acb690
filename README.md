# Calico rock integration-test helpers, modelled in Dafny

The calico-rocks repository packages Calico (a CNI plugin and its Tigera
operator) as container images and tests them. The tests install the images on
a throw-away cluster through the `tigera-operator` Helm chart. This project
models the pure and list-building helpers that the integration test uses to
drive that install, and proves properties of them:

- `parse_image` cuts an image string `registry/repo/name:tag` into four fields
  by position (module `ImageRefs`).
- `get_image_platform` maps the machine name to the image platform
  (module `Platforms`).
- `get_imageset_spec` builds the operator's ImageSet resource. The resource
  pins each Calico image, under its upstream name, to the digest of the
  locally built image (module `ImageSets`).
- `test_calico` builds the list of `key=value` Helm overrides from the parsed
  operator and calicoctl images (module `HelmOverrides`).

The Python string operations these helpers rely on are modelled in `Text`:
`str.split` with a one-character separator and `str.replace`. Their laws are
proved there: join after split, split after join, split over a separator,
and replace when the pattern is absent, in front, or skipped. `Occurs` is
the model's own "the pattern occurs in the string" predicate, used to state
the `replace` laws. `Wrappers` holds the `Option` and `Result` types. A
`Result` stands for "returns a value or raises".

The ImageSet builder mutates a list in a loop, so it is a method with a loop
and a growing-sequence invariant. Everything else is functions and lemmas.
The machine name (`platform.machine()` in the source) is a parameter. So is
the digest of each built image, `digestOf(image, version)`; the source gets
it from `docker manifest inspect`.

The list of the nine Calico images is written as `"calico-" + component` over
the nine component names. The strings are the same as the literal list in
the source.

`parse_image` does no validation of its own. It fails only when a list index
is out of range: the string has fewer than three `/`-separated parts, or the
third part has no `:`. Extra `/`-parts and extra `:`-parts are ignored.
`ImageRefs.ParseImage` does the same, and its only error is `IndexError`.

## Model

| member | source | states |
|---|---|---|
| `ImageRefs.ParseImage` | tests/integration/test_calico.py:121-130 | parsing succeeds exactly when the string has at least two `/` and its third `/`-part contains a `:`; otherwise it fails with an index error |
| `ImageRefs.ParseFormat` | tests/integration/test_calico.py:122-130 | fields with no `/`, and with no `:` in name and tag, written as `registry/repo/name:tag` parse back to the same four fields |
| `ImageRefs.FormatParse` | tests/integration/test_calico.py:122-130 | a string in the documented form (exactly two `/`, one `:` after them) parses, and `registry + "/" + repo + "/" + name + ":" + tag` reproduces it exactly |
| `ImageRefs.ParseIgnoresExtraSegments` | tests/integration/test_calico.py:124-129 | once the string has three `/`-parts, appending `/` and anything else does not change the result |
| `ImageRefs.ParseIgnoresExtraColons` | tests/integration/test_calico.py:128-129 | with several `:` in the last part, the tag is only the text between the first and second `:` |
| `Text.Split` | tests/integration/test_calico.py:124 | `str.split`: one part more than there are separators, and no part contains the separator |
| `Text.JoinSplit` | tests/integration/test_calico.py:124 | joining the parts of a split with the separator gives the original string back |
| `Text.SplitJoin` | tests/integration/test_calico.py:124 | splitting a join of separator-free parts gives the parts back |
| `Text.SplitAppend` | tests/integration/test_calico.py:124 | splitting `a + sep + b` gives the parts of `a` followed by the parts of `b` |
| `Text.Replace` | tests/integration/test_calico.py:108-109 | `str.replace`, scanning left to right and replacing non-overlapping occurrences: a string in which the pattern does not occur comes back unchanged, and a replacement as long as the pattern keeps the length; `ReplaceFront` and `ReplaceSkip` state how an occurrence at the front and a prefix without one are handled |
| `Text.ReplaceSkip` | tests/integration/test_calico.py:108-109 | `str.replace` copies unchanged a prefix in which no occurrence of the pattern starts |
| `Platforms.ImagePlatform` | tests/integration/test_calico.py:15-21 | succeeds exactly for `x86_64` and `aarch64`, and always returns `amd64` or `arm64`; any other machine raises "Unsupported cpu platform: <machine>" |
| `Platforms.ImagePlatformInverse` | tests/integration/test_calico.py:15-21 | the returned platform determines the machine: `amd64` comes only from `x86_64` and `arm64` only from `aarch64` |
| `Platforms.MachineForInverse` | tests/integration/test_calico.py:15-21 | each of the two platforms is produced from its machine name |
| `ImageSets.Zip` | tests/integration/test_calico.py:98 | `zip` pairs equal positions and stops at the shorter list |
| `ImageSets.Repeat` | tests/integration/test_calico.py:98 | `[x] * n` has length n and every element is x |
| `ImageSets.Rename` | tests/integration/test_calico.py:108-109 | the two `replace` calls in their order (`calico-tigera-` first, then `calico-`); an image without `calico-` keeps its name. `RenameCalicoComponent`, `RenameOperatorComponent`, `RenameCalicoImages` and `RenameOperatorImage` state what it does to the listed images |
| `ImageSets.RenameCalicoComponent` | tests/integration/test_calico.py:108-109 | `calico-X` is renamed `calico/X` when X neither contains `calico-` nor starts with `tigera-` |
| `ImageSets.RenameOperatorComponent` | tests/integration/test_calico.py:108-109 | `calico-tigera-X` is renamed `tigera/X` when X contains no `calico-`: the `tigera` replacement runs first, so the second one cannot touch it |
| `ImageSets.RenameCalicoImages` | tests/integration/test_calico.py:87-109 | each of the nine listed Calico images is renamed `calico/<component>` (`calico-node` becomes `calico/node`, and so on) |
| `ImageSets.RenameOperatorImage` | tests/integration/test_calico.py:99-109 | `calico-tigera-operator` is renamed `tigera/operator` |
| `ImageSets.GetImageSetSpec` | tests/integration/test_calico.py:77-118 | the ImageSet is named `calico-<calico version>` and has exactly ten entries: the nine Calico images in listed order, each with its upstream name and the digest of its build at the Calico version, then `tigera/operator` with the digest of the operator build, last |
| `HelmOverrides.Setting` | tests/integration/test_calico.py:156-160 | an override string is the key, an `=`, then the value; `ReadSettingInverse` reads it back |
| `HelmOverrides.SetConfigs` | tests/integration/test_calico.py:155-165 | seven overrides in the test's order; the last two are the key/value overrides `installation.enabled` = `false` and `apiServer.enabled` = `false`; `ReadOperatorSettings` and `ReadCalicoctlSettings` read back the five built from the image fields |
| `HelmOverrides.InstallSettings` | tests/integration/test_calico.py:144-165 | the overrides are built exactly when both the operator image and the calicoctl image parse, and then they are `SetConfigs` of the two parsed images; a parse failure of either aborts |
| `HelmOverrides.ReadSettingInverse` | tests/integration/test_calico.py:156-160 | an override `key=value` whose key has no `=` reads back as that key and that value |
| `HelmOverrides.ReadOperatorSettings` | tests/integration/test_calico.py:156-158 | the operator overrides read back as `tigeraOperator.image` = `repo/name`, `tigeraOperator.version` = tag, `tigeraOperator.registry` = registry |
| `HelmOverrides.ReadCalicoctlSettings` | tests/integration/test_calico.py:159-160 | the calicoctl overrides read back as `calicoctl.image` = `registry/name/tag`, as the test writes it, and `calicoctl.tag` = tag |
| `HelmOverrides.OperatorImageReachesChart` | tests/integration/test_calico.py:144-158 | for an operator image in the documented form, the registry, image and version overrides put back together as `registry/image:version` give exactly that image string; the calicoctl tag override is the calicoctl image's tag |

## Left out

- `get_image_sha256_digest` runs `docker manifest inspect` in a subprocess and reads the digest from its JSON. This is I/O, so the digest is the opaque parameter `digestOf`. In the source the rock lookup, the subprocess (`check=True`) and the JSON lookup can each raise, and any failure aborts `get_imageset_spec`. `digestOf` is total, so such failures are not modelled. The image platform `IMG_PLATFORM`, which selects the rock whose digest is taken, is folded into `digestOf`.
- `env_util.get_build_meta_info_for_rock_version`, `k8s_util.get_helm_install_command` and `k8s_util.wait_for_deployment` belong to the external `k8s_test_harness` package, which is not part of this model. That covers image lookup by component, version and platform, the Helm command line, and the readiness polling with its retries.
- The `function_instance.exec` and `kubectl apply` calls of `test_calico` are cluster I/O. So is the order in which it installs the chart, waits for the operator and applies manifests.
- `json.dumps` of the ImageSet is not modelled; the resource is a record.
- The YAML text of `get_installation_spec` and `APISERVER_SPEC` is fixed text with two inserted strings and is not modelled.
- `platform.machine()` and the module constant `IMG_PLATFORM` are replaced by the machine-name parameter of `Platforms.ImagePlatform`.
- tests/sanity/test_calico.py runs commands in Docker and checks substrings of their output; it is not modelled. Its `get_image_platform` is the same code as the integration one, so `Platforms.ImagePlatform` covers both.
- `Text.Replace` requires a non-empty pattern. The source replaces only the non-empty literals `calico-tigera-` and `calico-`, so Python's behaviour for an empty pattern is not modelled.
- `HelmOverrides.ReadSetting` is this model's reading of an override: the key is the text before the first `=`. Helm's own `--set` syntax (commas, escapes, list indices) is not modelled.
- HelmOverrides.SetConfigs: the contract states that the two fixed entries are `Setting("installation.enabled", "false")` and `Setting("apiServer.enabled", "false")`, which gives each its key and value by position. It does not state their `ReadSetting` read-back, because on these all-literal strings the verifier unfolds the read character by character and runs out of resource. `ReadOperatorSettings` and `ReadCalicoctlSettings` read back the other five entries.
