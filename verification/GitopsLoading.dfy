/** Which files of a directory the loader picks up, path part by path part. */
module GitopsLoading {
  import opened Text
  import opened GitopsContracts
  import opened Folding
  import opened GitopsCodec
  import opened GitopsRepository

  /** ".yaml" or ".yml", each letter in either case. */
  predicate YamlExtension(ext: string) {
    |ext| >= 4 && ext[0] == '.' && ext[1] in {'y', 'Y'}
    && ((|ext| == 5 && ext[2] in {'a', 'A'} && ext[3] in {'m', 'M'} && ext[4] in {'l', 'L'})
        || (|ext| == 4 && ext[2] in {'m', 'M'} && ext[3] in {'l', 'L'}))
  }

  /** `^[^./]+\.ya?ml$`, ignoring case. */
  predicate YamlFile(name: string) {
    exists n | 0 < n <= |name| :: '.' !in name[..n] && '/' !in name[..n] && YamlExtension(name[n..])
  }

  lemma {:induction false} LowerCase(c: char)
    ensures Lower(c) == 'y' <==> c in {'y', 'Y'}
    ensures Lower(c) == 'a' <==> c in {'a', 'A'}
    ensures Lower(c) == 'm' <==> c in {'m', 'M'}
    ensures Lower(c) == 'l' <==> c in {'l', 'L'}
  {
  }

  lemma {:induction false} ExtensionInEitherCase(ext: string)
    ensures Map(Lower, ext) in YAML_NAMES <==> YamlExtension("." + ext)
  {
    forall c
      ensures Lower(c) == 'y' <==> c in {'y', 'Y'}
      ensures Lower(c) == 'a' <==> c in {'a', 'A'}
      ensures Lower(c) == 'm' <==> c in {'m', 'M'}
      ensures Lower(c) == 'l' <==> c in {'l', 'L'}
    {
      LowerCase(c);
    }
    assert Map(Lower, ext) == "yaml" || Map(Lower, ext) == "yml" <==> Map(Lower, ext) in YAML_NAMES;
  }

  lemma {:induction false} ExtensionIsPlain(ext: string)
    requires YamlExtension("." + ext)
    ensures '.' !in ext && '/' !in ext
  {
    var whole := "." + ext;
    forall i | 0 <= i < |ext| ensures ext[i] != '.' && ext[i] != '/' {
      assert ext[i] == whole[i + 1];
      assert i == 0 || i == 1 || i == 2 || i == 3;
    }
  }

  lemma {:induction false} YamlFileParts(stem: string, ext: string)
    requires '.' !in stem && '.' !in ext
    ensures Split(stem + ['.'] + ext, '.') == [stem, ext]
  {
    SplitConcat(stem, '.', ext);
    SplitWhole(stem, '.');
    SplitWhole(ext, '.');
  }

  lemma {:induction false} DocFilenameIsYaml(name: string)
    requires DocFilename(name)
    ensures YamlFile(name)
  {
    var parts := Split(name, '.');
    JoinSplit(name, '.');
    assert name == parts[0] + ['.'] + parts[1];
    var n := |parts[0]|;
    ExtensionInEitherCase(parts[1]);
    assert name[..n] == parts[0] && name[n..] == "." + parts[1];
  }

  lemma {:induction false} YamlIsDocFilename(stem: string, ext: string)
    requires stem != "" && '.' !in stem && '/' !in stem && YamlExtension("." + ext)
    ensures DocFilename(stem + ['.'] + ext)
  {
    ExtensionIsPlain(ext);
    YamlFileParts(stem, ext);
    ExtensionInEitherCase(ext);
  }

  lemma {:induction false} CutAtDot(name: string, n: nat)
    requires n < |name| && name[n] == '.'
    ensures name[n..] == "." + name[n + 1..] && name == name[..n] + ['.'] + name[n + 1..]
  {
  }

  lemma {:induction false} DocFilenames(name: string)
    ensures DocFilename(name) <==> YamlFile(name)
  {
    if DocFilename(name) {
      DocFilenameIsYaml(name);
    }
    if YamlFile(name) {
      var n :| 0 < n <= |name| && '.' !in name[..n] && '/' !in name[..n] && YamlExtension(name[n..]);
      assert name[n] == name[n..][0];
      CutAtDot(name, n);
      YamlIsDocFilename(name[..n], name[n + 1..]);
    }
  }

  /** The path lies somewhere under this directory. */
  predicate Under(path: string, dir: string) {
    |Split(path, '/')| >= 2 && Split(path, '/')[0] == dir
  }

  lemma {:induction false} StartsUnder(path: string, dir: string)
    requires '/' !in dir
    ensures StartsWith(path, dir + "/") <==> Under(path, dir)
  {
    StartsWithPart(path, '/', dir);
  }

  /** The two files at the top; YAML files anywhere under the directories of roles and definitions;
      under "scopes/" scope files, and YAML files whose own directory is one of a kind. */
  lemma {:induction false} PathsLoaded(path: string)
    ensures var parts := Split(path, '/'); var last := parts[|parts| - 1];
      DesiredStatePath(path) <==>
        path == "gitops.yaml" || path == "assignments.yaml"
        || ((Under(path, "roles") || Under(path, "agents") || Under(path, "workflows") || Under(path, "skills")) && YamlFile(last))
        || (Under(path, "scopes")
            && (last == "scope.yaml" || (parts[|parts| - 2] in {"agents", "workflows", "skills"} && YamlFile(last))))
  {
    var parts := Split(path, '/');
    DocFilenames(parts[|parts| - 1]);
    StartsUnder(path, "roles");
    StartsUnder(path, "agents");
    StartsUnder(path, "workflows");
    StartsUnder(path, "skills");
    StartsUnder(path, "scopes");
  }
}
