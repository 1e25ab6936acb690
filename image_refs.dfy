/**
  `parse_image`: a fully qualified image string `registry/repo/name:tag`
  cut into its four fields by position, with no validation beyond what
  Python's list indexing does.
 */
module ImageRefs {
  import opened Wrappers
  import opened Text

  /** The dictionary `parse_image` returns. */
  datatype ImageRef = ImageRef(registry: string, repo: string, name: string, tag: string)

  /** The only way `parse_image` fails: a list index out of range. */
  datatype ParseError = IndexError

  /** `parse_image(image)`: split on `/`, take parts 0 and 1 as registry and
      repository, and split part 2 on `:` into name and tag. Segments after the
      third `/`-part and after the second `:`-part are never looked at. */
  function ParseImage(image: string): (r: Result<ImageRef, ParseError>)
    ensures r.Success? <==> Count(image, '/') >= 2 && ':' in Split(image, '/')[2]
  {
    var parts := Split(image, '/');
    if |parts| < 3 then Failure(IndexError)
    else
      var nameTag := Split(parts[2], ':');
      if |nameTag| < 2 then Failure(IndexError)
      else Success(ImageRef(parts[0], parts[1], nameTag[0], nameTag[1]))
  }

  /** The string `registry/repo/name:tag` the fields came from. */
  function Format(ref: ImageRef): (s: string)
  {
    ref.registry + "/" + ref.repo + "/" + ref.name + ":" + ref.tag
  }

  /** Fields that can be written as `registry/repo/name:tag` and read back:
      no field holds a `/`, and name and tag hold no `:`. */
  predicate WellFormed(ref: ImageRef)
  {
    '/' !in ref.registry && '/' !in ref.repo && '/' !in ref.name && '/' !in ref.tag
    && ':' !in ref.name && ':' !in ref.tag
  }

  /** The documented shape `ghcr.io/$repo/$name:$tag`: exactly two `/`, and
      exactly one `:` after the last of them. */
  predicate DocumentedForm(image: string)
  {
    Count(image, '/') == 2 && Count(Split(image, '/')[2], ':') == 1
  }

  /** Splitting `name:tag`, with `extra` colon-separated text possibly after it. */
  lemma SplitNameTag(name: string, rest: string)
    requires ':' !in name
    ensures Split(name + ":" + rest, ':') == [name] + Split(rest, ':')
  {
    SplitCons(name, rest, ':');
  }

  /** Splitting `registry/repo/rest` when registry and repo hold no `/`. */
  lemma SplitPath(registry: string, repo: string, rest: string)
    requires '/' !in registry && '/' !in repo
    ensures Split(registry + "/" + repo + "/" + rest, '/') == [registry, repo] + Split(rest, '/')
  {
    assert registry + "/" + repo + "/" + rest == registry + ['/'] + (repo + ['/'] + rest);
    SplitCons(registry, repo + ['/'] + rest, '/');
    SplitCons(repo, rest, '/');
  }

  /** Parsing the formatted fields gives the fields back. */
  lemma ParseFormat(ref: ImageRef)
    requires WellFormed(ref)
    ensures ParseImage(Format(ref)) == Success(ref)
  {
    var nameTag := ref.name + ":" + ref.tag;
    assert Format(ref) == ref.registry + "/" + ref.repo + "/" + nameTag;
    SplitPath(ref.registry, ref.repo, nameTag);
    assert '/' !in nameTag;
    assert Split(nameTag, '/') == [nameTag];
    SplitNameTag(ref.name, ref.tag);
    assert Split(ref.tag, ':') == [ref.tag];
  }

  /** An image in the documented form parses, into well-formed fields that
      reassemble the original string exactly. */
  lemma FormatParse(image: string)
    requires DocumentedForm(image)
    ensures ParseImage(image).Success?
    ensures WellFormed(ParseImage(image).value)
    ensures Format(ParseImage(image).value) == image
  {
    var parts := Split(image, '/');
    var p0, p1, p2 := parts[0], parts[1], parts[2];
    assert parts == [p0, p1, p2];
    var nameTag := Split(p2, ':');
    var name, tag := nameTag[0], nameTag[1];
    assert nameTag == [name, tag];
    assert image == p0 + "/" + p1 + "/" + p2 by {
      JoinSplit(image, '/');
      JoinThree(p0, p1, p2, '/');
    }
    assert p2 == name + ":" + tag by {
      JoinSplit(p2, ':');
      assert nameTag[1..] == [tag];
    }
    assert '/' !in p2;
    assert ParseImage(image) == Success(ImageRef(p0, p1, name, tag));
  }

  /** Joining three parts. */
  lemma JoinThree(a: string, b: string, c: string, sep: char)
    ensures Join([a, b, c], sep) == a + [sep] + b + [sep] + c
  {
    assert [a, b, c][1..] == [b, c];
    assert [b, c][1..] == [c];
    assert Join([c], sep) == c;
    assert Join([b, c], sep) == b + [sep] + c;
    assert Join([a, b, c], sep) == a + [sep] + (b + [sep] + c);
    assert a + [sep] + (b + [sep] + c) == a + [sep] + b + [sep] + c;
  }

  /** Everything after the third `/`-separated part is ignored. */
  lemma ParseIgnoresExtraSegments(image: string, rest: string)
    requires Count(image, '/') >= 2
    ensures ParseImage(image + "/" + rest) == ParseImage(image)
  {
    SplitAppend(image, rest, '/');
    assert (Split(image, '/') + Split(rest, '/'))[2] == Split(image, '/')[2];
  }

  /** When the last part holds several `:`, the tag is only the text between
      the first and the second of them. */
  lemma ParseIgnoresExtraColons(ref: ImageRef, extra: string)
    requires WellFormed(ref) && '/' !in extra
    ensures ParseImage(Format(ref) + ":" + extra) == Success(ref)
  {
    var image := Format(ref) + ":" + extra;
    var nameTag := ref.name + ":" + (ref.tag + ":" + extra);
    assert Split(image, '/') == [ref.registry, ref.repo, nameTag] by {
      PathWithExtraColons(ref, extra);
    }
    NameTagWithExtraColons(ref.name, ref.tag, extra);
    ParseOfParts(image, ref);
  }

  /** The `:`-parts of `name:tag:extra` start with name and tag. */
  lemma NameTagWithExtraColons(name: string, tag: string, extra: string)
    requires ':' !in name && ':' !in tag
    ensures var parts := Split(name + ":" + (tag + ":" + extra), ':');
      |parts| >= 2 && parts[0] == name && parts[1] == tag
  {
    SplitNameTag(name, tag + ":" + extra);
    SplitNameTag(tag, extra);
  }

  /** The `/`-parts of an image with extra `:`-text after the tag. */
  lemma PathWithExtraColons(ref: ImageRef, extra: string)
    requires WellFormed(ref) && '/' !in extra
    ensures Split(Format(ref) + ":" + extra, '/')
         == [ref.registry, ref.repo, ref.name + ":" + (ref.tag + ":" + extra)]
  {
    var nameTag := ref.name + ":" + (ref.tag + ":" + extra);
    FormatThenColon(ref, extra);
    SplitPath(ref.registry, ref.repo, nameTag);
    assert '/' !in nameTag;
  }

  /** Proof step for `PathWithExtraColons`: regrouping
      `registry/repo/name:tag:extra` around its last part. */
  lemma FormatThenColon(ref: ImageRef, extra: string)
    ensures Format(ref) + ":" + extra
         == ref.registry + "/" + ref.repo + "/" + (ref.name + ":" + (ref.tag + ":" + extra))
  {
  }

  /** Proof step for `ParseIgnoresExtraColons`: `parse_image` reads exactly
      the four positions it indexes. */
  lemma ParseOfParts(image: string, ref: ImageRef)
    requires |Split(image, '/')| >= 3
    requires Split(image, '/')[0] == ref.registry && Split(image, '/')[1] == ref.repo
    requires |Split(Split(image, '/')[2], ':')| >= 2
    requires Split(Split(image, '/')[2], ':')[0] == ref.name
    requires Split(Split(image, '/')[2], ':')[1] == ref.tag
    ensures ParseImage(image) == Success(ref)
  {
  }
}
