/**
  `get_image_platform`: the image platform for the machine the tests run on.
  The machine name, which the source reads from `platform.machine()`, is a
  parameter here.
 */
module Platforms {
  import opened Wrappers

  /** The message of the exception raised for an unknown machine. */
  function UnsupportedMessage(machine: string): (msg: string)
  {
    "Unsupported cpu platform: " + machine
  }

  /** `x86_64` maps to `amd64`, `aarch64` to `arm64`; everything else raises. */
  function ImagePlatform(machine: string): (r: Result<string, string>)
    ensures r.Success? <==> machine == "x86_64" || machine == "aarch64"
    ensures r.Success? ==> r.value == "amd64" || r.value == "arm64"
    ensures r.Failure? ==> r.error == UnsupportedMessage(machine)
  {
    if machine == "x86_64" then Success("amd64")
    else if machine == "aarch64" then Success("arm64")
    else Failure(UnsupportedMessage(machine))
  }

  /** The machine name whose images a platform selects. */
  function MachineFor(platform: string): (m: Option<string>)
  {
    if platform == "amd64" then Some("x86_64")
    else if platform == "arm64" then Some("aarch64")
    else None
  }

  /** The mapping is one-to-one: every platform it returns names back the
      single machine it was chosen for. */
  lemma ImagePlatformInverse(machine: string)
    requires ImagePlatform(machine).Success?
    ensures MachineFor(ImagePlatform(machine).value) == Some(machine)
  {
  }

  /** Every platform that `MachineFor` knows is produced from its machine. */
  lemma MachineForInverse(platform: string)
    requires MachineFor(platform).Some?
    ensures ImagePlatform(MachineFor(platform).value) == Success(platform)
  {
  }
}
