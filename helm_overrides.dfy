/**
  The `set_configs` list `test_calico` hands to the Helm install command:
  `key=value` overrides built from the parsed operator and calicoctl images.
  How the chart reads an override back (key before the first `=`, value
  after it) is the partner definition the properties are stated against.
 */
module HelmOverrides {
  import opened Wrappers
  import opened Text
  import opened ImageRefs

  /** One `--set` override, as the chart reads it. */
  datatype Override = Override(key: string, value: string)

  /** The override string `key=value`: the key, an `=`, then the value. */
  function Setting(key: string, value: string): (s: string)
    ensures |s| == |key| + 1 + |value| && s[|key|] == '='
    ensures s[..|key|] == key && s[|key| + 1..] == value
  {
    key + "=" + value
  }

  /** Reading an override string: the key is the text before the first `=`,
      the value everything after it; a string without `=` is no override. */
  function ReadSetting(s: string): (r: Option<Override>)
  {
    if '=' !in s then None
    else
      var i := IndexOf(s, '=');
      Some(Override(s[..i], s[i + 1..]))
  }

  /** The override list of `test_calico`, in its order: five overrides
      built from the image fields, then the two that switch off the
      Installation and API server resources. */
  function SetConfigs(op: ImageRef, ctl: ImageRef): (cfg: seq<string>)
    ensures |cfg| == 7
    ensures cfg[5] == Setting("installation.enabled", "false")
    ensures cfg[6] == Setting("apiServer.enabled", "false")
  {
    [
      Setting("tigeraOperator.image", op.repo + "/" + op.name),
      Setting("tigeraOperator.version", op.tag),
      Setting("tigeraOperator.registry", op.registry),
      Setting("calicoctl.image", ctl.registry + "/" + ctl.name + "/" + ctl.tag),
      Setting("calicoctl.tag", ctl.tag),
      "installation.enabled=false",
      "apiServer.enabled=false"
    ]
  }

  /** `test_calico` parses the operator image, then the calicoctl image, and
      builds the overrides from both; a parse failure aborts before any
      override is built. */
  function InstallSettings(operatorImage: string, calicoctlImage: string): (r: Result<seq<string>, ParseError>)
    ensures r.Success? <==> ParseImage(operatorImage).Success? && ParseImage(calicoctlImage).Success?
    ensures r.Success? ==> r.value == SetConfigs(ParseImage(operatorImage).value, ParseImage(calicoctlImage).value)
  {
    var op := ParseImage(operatorImage);
    if op.Failure? then Failure(op.error)
    else
      var ctl := ParseImage(calicoctlImage);
      if ctl.Failure? then Failure(ctl.error)
      else Success(SetConfigs(op.value, ctl.value))
  }

  /** An override whose key holds no `=` reads back as that key and value. */
  lemma ReadSettingInverse(key: string, value: string)
    requires '=' !in key
    ensures ReadSetting(Setting(key, value)) == Some(Override(key, value))
  {
    var s := Setting(key, value);
    IndexOfAfter(key, '=', value);
    assert s == key + ['='] + value;
  }

  /** The three operator overrides read back as the operator image's
      `repo/name`, its tag and its registry, whatever the fields hold. */
  lemma ReadOperatorSettings(op: ImageRef, ctl: ImageRef)
    ensures var cfg := SetConfigs(op, ctl);
      ReadSetting(cfg[0]) == Some(Override("tigeraOperator.image", op.repo + "/" + op.name))
      && ReadSetting(cfg[1]) == Some(Override("tigeraOperator.version", op.tag))
      && ReadSetting(cfg[2]) == Some(Override("tigeraOperator.registry", op.registry))
  {
    var cfg := SetConfigs(op, ctl);
    var image, version, registry := op.repo + "/" + op.name, op.tag, op.registry;
    assert cfg[0] == Setting("tigeraOperator.image", image);
    assert cfg[1] == Setting("tigeraOperator.version", version);
    assert cfg[2] == Setting("tigeraOperator.registry", registry);
    ReadSettingInverse("tigeraOperator.image", image);
    ReadSettingInverse("tigeraOperator.version", version);
    ReadSettingInverse("tigeraOperator.registry", registry);
  }

  /** The calicoctl overrides read back as `registry/name/tag` (the image
      override as the test writes it) and the calicoctl image's tag. */
  lemma ReadCalicoctlSettings(op: ImageRef, ctl: ImageRef)
    ensures var cfg := SetConfigs(op, ctl);
      ReadSetting(cfg[3]) == Some(Override("calicoctl.image", ctl.registry + "/" + ctl.name + "/" + ctl.tag))
      && ReadSetting(cfg[4]) == Some(Override("calicoctl.tag", ctl.tag))
  {
    ReadSettingInverse("calicoctl.image", ctl.registry + "/" + ctl.name + "/" + ctl.tag);
    ReadSettingInverse("calicoctl.tag", ctl.tag);
  }

  /** For an operator image in the documented form, the chart's registry,
      image and version overrides put back together as
      `registry/image:version` give exactly the image the test built; the
      calicoctl tag override is the calicoctl image's tag. */
  lemma OperatorImageReachesChart(operatorImage: string, calicoctlImage: string)
    requires DocumentedForm(operatorImage)
    requires ParseImage(calicoctlImage).Success?
    ensures InstallSettings(operatorImage, calicoctlImage).Success?
    ensures var cfg := InstallSettings(operatorImage, calicoctlImage).value;
      ReadSetting(cfg[2]).Some? && ReadSetting(cfg[0]).Some? && ReadSetting(cfg[1]).Some?
      && ReadSetting(cfg[2]).value.value + "/" + ReadSetting(cfg[0]).value.value
         + ":" + ReadSetting(cfg[1]).value.value == operatorImage
    ensures var cfg := InstallSettings(operatorImage, calicoctlImage).value;
      ReadSetting(cfg[4]) == Some(Override("calicoctl.tag", ParseImage(calicoctlImage).value.tag))
  {
    FormatParse(operatorImage);
    var op := ParseImage(operatorImage).value;
    var ctl := ParseImage(calicoctlImage).value;
    ReadOperatorSettings(op, ctl);
    ReadCalicoctlSettings(op, ctl);
    FormatRegrouped(op);
  }

  /** Proof step for `OperatorImageReachesChart`: `registry/repo/name:tag`
      read as `registry` / `repo/name` : `tag`. */
  lemma FormatRegrouped(ref: ImageRef)
    ensures Format(ref) == ref.registry + "/" + (ref.repo + "/" + ref.name) + ":" + ref.tag
  {
  }
}
