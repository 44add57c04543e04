/**
 * Asset resolution: choosing the release asset to download for a platform
 * (FindAsset) and listing the assets a catalog entry offers (Filter).
 *
 * Go's filepath.Match is modelled for patterns without the metacharacters
 * `*`, `?`, `[` and `\`: such a pattern matches exactly the string equal to it.
 * FindAsset therefore requires its name, version, OS and architecture to be
 * free of them; the extensions it appends are.
 */
module Asset {
  import opened Strings
  import opened Outcomes

  /** The chosen asset and the runtime kind it was classified as ("exec" or "wasm"). */
  datatype Match = Match(asset: string, runtime: string)

  datatype AssetError =
    | NoValidAssets(prefix: string, name: string)  // no asset survived the name/suffix filter
    | NoMatchingAsset                              // no pattern and extension matched

  predicate GlobFree(s: string) {
    forall i :: 0 <= i < |s| ==> s[i] != '*' && s[i] != '?' && s[i] != '[' && s[i] != '\\'
  }

  lemma GlobFreeConcat(a: string, b: string)
    requires GlobFree(a) && GlobFree(b)
    ensures GlobFree(a + b)
  {
    forall i | 0 <= i < |a + b|
      ensures (a + b)[i] != '*' && (a + b)[i] != '?' && (a + b)[i] != '[' && (a + b)[i] != '\\'
    {
      if i >= |a| {
        assert (a + b)[i] == b[i - |a|];
      }
    }
  }

  /** filepath.Match(pattern, s) for a pattern without metacharacters. */
  predicate GlobMatch(pattern: string, s: string)
    requires GlobFree(pattern)
  {
    pattern == s
  }

  /** The filter of asset.go: starts with the plugin name, is not a checksum or signature file. */
  predicate Keep(name: string, asset: string) {
    HasPrefix(asset, name)
    && !HasSuffix(asset, ".sha256") && !HasSuffix(asset, ".asc") && !HasSuffix(asset, ".sig")
  }

  /** The assets that pass the filter, in their original order. */
  function ValidAssets(name: string, assets: seq<string>): seq<string>
  {
    if assets == [] then []
    else
      var last := assets[|assets| - 1];
      ValidAssets(name, assets[..|assets| - 1]) + (if Keep(name, last) then [last] else [])
  }

  /** The three patterns, most specific first. */
  function Patterns(name: string, version: string, goos: string, arch: string): seq<string> {
    [name + "-" + version + "-" + goos + "-" + arch, name + "-" + version, name]
  }

  const Extensions: seq<string> := ["", ".exe", ".zip", ".tar.gz", ".tgz", ".wasm"]

  /** The runtime kind an extension stands for. */
  function RuntimeOf(ext: string): string {
    if Contains(ext, "wasm") then "wasm" else "exec"
  }

  /** The position of the first asset the pattern matches. */
  function FirstMatching(pattern: string, valid: seq<string>): (j: Option<nat>)
    requires GlobFree(pattern)
    ensures j.Some? ==> j.value < |valid| && GlobMatch(pattern, valid[j.value])
    ensures j.Some? ==> forall k :: 0 <= k < j.value ==> !GlobMatch(pattern, valid[k])
    ensures j.None? ==> forall k :: 0 <= k < |valid| ==> !GlobMatch(pattern, valid[k])
  {
    if valid == [] then None
    else if GlobMatch(pattern, valid[0]) then Some(0)
    else match FirstMatching(pattern, valid[1..])
      case None => None
      case Some(j) => Some(j + 1)
  }

  /** The search over extensions for one pattern: extension order, then asset order. */
  function SearchExtensions(pattern: string, exts: seq<string>, valid: seq<string>): Option<Match>
    requires GlobFree(pattern) && forall e :: e in exts ==> GlobFree(e)
  {
    if exts == [] then None
    else
      GlobFreeConcat(pattern, exts[0]);
      match FirstMatching(pattern + exts[0], valid)
      case Some(j) => Some(Match(valid[j], RuntimeOf(exts[0])))
      case None => SearchExtensions(pattern, exts[1..], valid)
  }

  /** The search over patterns: pattern order first. */
  function SearchPatterns(patterns: seq<string>, valid: seq<string>): Option<Match>
    requires forall p :: p in patterns ==> GlobFree(p)
  {
    if patterns == [] then None
    else
      ExtensionsGlobFree();
      match SearchExtensions(patterns[0], Extensions, valid)
      case Some(m) => Some(m)
      case None => SearchPatterns(patterns[1..], valid)
  }

  lemma ExtensionsGlobFree()
    ensures forall e :: e in Extensions ==> GlobFree(e)
  {
  }

  lemma PatternsGlobFree(name: string, version: string, goos: string, arch: string)
    requires GlobFree(name) && GlobFree(version) && GlobFree(goos) && GlobFree(arch)
    ensures forall p :: p in Patterns(name, version, goos, arch) ==> GlobFree(p)
  {
    assert GlobFree("-");
    GlobFreeConcat(name, "-");
    GlobFreeConcat(name + "-", version);
    GlobFreeConcat(name + "-" + version, "-");
    GlobFreeConcat(name + "-" + version + "-", goos);
    GlobFreeConcat(name + "-" + version + "-" + goos, "-");
    GlobFreeConcat(name + "-" + version + "-" + goos + "-", arch);
  }

  /** What FindAsset returns, as a function of its inputs. */
  function FindAssetSpec(prefix: string, name: string, version: string, goos: string, arch: string,
                         assets: seq<string>): Result<Match, AssetError>
    requires GlobFree(name) && GlobFree(version) && GlobFree(goos) && GlobFree(arch)
  {
    var valid := ValidAssets(name, assets);
    if valid == [] then Err(NoValidAssets(prefix, name))
    else
      PatternsGlobFree(name, version, goos, arch);
      match SearchPatterns(Patterns(name, version, goos, arch), valid)
      case Some(m) => Ok(m)
      case None => Err(NoMatchingAsset)
  }

  /**
   * FindAsset (asset.go): filter the candidates, then return the first hit of the
   * pattern / extension / candidate search, classified by its extension.
   */
  method FindAsset(prefix: string, name: string, version: string, goos: string, arch: string,
                   assets: seq<string>) returns (r: Result<Match, AssetError>)
    requires GlobFree(name) && GlobFree(version) && GlobFree(goos) && GlobFree(arch)
    ensures r == FindAssetSpec(prefix, name, version, goos, arch, assets)
  {
    var validAssets: seq<string> := [];
    for i := 0 to |assets|
      invariant validAssets == ValidAssets(name, assets[..i])
    {
      var asset := assets[i];
      assert assets[..i + 1][..i] == assets[..i];
      if !HasPrefix(asset, name) || HasSuffix(asset, ".sha256") || HasSuffix(asset, ".asc")
         || HasSuffix(asset, ".sig") {
        continue;
      }
      validAssets := validAssets + [asset];
    }
    assert assets[..|assets|] == assets;

    if |validAssets| == 0 {
      return Err(NoValidAssets(prefix, name));
    }

    PatternsGlobFree(name, version, goos, arch);
    var hit := SearchCandidates(Patterns(name, version, goos, arch), validAssets);
    match hit {
      case Some(m) => return Ok(m);
      case None => return Err(NoMatchingAsset);
    }
  }

  /** The outer loop of FindAsset's search: patterns in order of specificity. */
  method SearchCandidates(patterns: seq<string>, validAssets: seq<string>) returns (hit: Option<Match>)
    requires forall p :: p in patterns ==> GlobFree(p)
    ensures hit == SearchPatterns(patterns, validAssets)
  {
    ExtensionsGlobFree();
    for pi := 0 to |patterns|
      invariant SearchPatterns(patterns, validAssets) == SearchPatterns(patterns[pi..], validAssets)
    {
      var found := SearchPattern(patterns[pi], validAssets);
      if found.Some? {
        PatternHit(patterns, pi, validAssets, found.value);
        return found;
      }
      PatternMiss(patterns, pi, validAssets);
    }
    assert patterns[|patterns|..] == [];
    return None;
  }

  /** The two inner loops of FindAsset's search: for one pattern, each extension, each candidate. */
  method SearchPattern(pattern: string, validAssets: seq<string>) returns (hit: Option<Match>)
    requires GlobFree(pattern)
    ensures hit == (ExtensionsGlobFree(); SearchExtensions(pattern, Extensions, validAssets))
  {
    var extensions := Extensions;
    ExtensionsGlobFree();
    for ei := 0 to |extensions|
      invariant SearchExtensions(pattern, extensions, validAssets)
             == SearchExtensions(pattern, extensions[ei..], validAssets)
    {
      var ext := extensions[ei];
      var target := pattern + ext;
      for ai := 0 to |validAssets|
        invariant forall k :: 0 <= k < ai ==> validAssets[k] != target
      {
        var asset := validAssets[ai];
        if target == asset {
          var runtime := "exec";
          if Contains(ext, "wasm") {
            runtime := "wasm";
          }
          ExtensionHit(pattern, extensions, ei, validAssets, ai);
          return Some(Match(asset, runtime));
        }
      }
      ExtensionMiss(pattern, extensions, ei, validAssets);
    }
    assert extensions[|extensions|..] == [];
    return None;
  }

  /** The candidate the search over candidates stops at is the first match of that extension. */
  lemma ExtensionHit(pattern: string, exts: seq<string>, ei: nat, valid: seq<string>, ai: nat)
    requires GlobFree(pattern) && (forall e :: e in exts ==> GlobFree(e)) && ei < |exts| && ai < |valid|
    requires valid[ai] == pattern + exts[ei]
    requires forall k :: 0 <= k < ai ==> valid[k] != pattern + exts[ei]
    ensures SearchExtensions(pattern, exts[ei..], valid) == Some(Match(valid[ai], RuntimeOf(exts[ei])))
  {
    GlobFreeConcat(pattern, exts[ei]);
    assert exts[ei..][0] == exts[ei];
    assert FirstMatching(pattern + exts[ei], valid) == Some(ai);
  }

  /** An extension no candidate matches passes the search on to the next one. */
  lemma ExtensionMiss(pattern: string, exts: seq<string>, ei: nat, valid: seq<string>)
    requires GlobFree(pattern) && (forall e :: e in exts ==> GlobFree(e)) && ei < |exts|
    requires forall k :: 0 <= k < |valid| ==> valid[k] != pattern + exts[ei]
    ensures SearchExtensions(pattern, exts[ei..], valid) == SearchExtensions(pattern, exts[ei + 1..], valid)
  {
    GlobFreeConcat(pattern, exts[ei]);
    assert exts[ei..][0] == exts[ei];
    assert exts[ei..][1..] == exts[ei + 1..];
    assert FirstMatching(pattern + exts[ei], valid).None?;
  }

  /** A hit under some pattern is the search's result once the earlier patterns missed. */
  lemma PatternHit(patterns: seq<string>, pi: nat, valid: seq<string>, m: Match)
    requires (forall p :: p in patterns ==> GlobFree(p)) && pi < |patterns|
    requires (forall e :: e in Extensions ==> GlobFree(e)) && SearchExtensions(patterns[pi], Extensions, valid) == Some(m)
    ensures SearchPatterns(patterns[pi..], valid) == Some(m)
  {
    assert patterns[pi..][0] == patterns[pi];
  }

  /** A pattern that matches under no extension passes the search on to the next one. */
  lemma PatternMiss(patterns: seq<string>, pi: nat, valid: seq<string>)
    requires (forall p :: p in patterns ==> GlobFree(p)) && pi < |patterns|
    requires (forall e :: e in Extensions ==> GlobFree(e)) && SearchExtensions(patterns[pi], Extensions, valid).None?
    ensures SearchPatterns(patterns[pi..], valid) == SearchPatterns(patterns[pi + 1..], valid)
  {
    assert patterns[pi..][0] == patterns[pi];
    assert patterns[pi..][1..] == patterns[pi + 1..];
  }

  /** Every asset that survives the filter passes it and was offered; every offered asset passing it survives. */
  lemma {:induction false} ValidAssetsIff(name: string, assets: seq<string>, a: string)
    ensures a in ValidAssets(name, assets) <==> a in assets && Keep(name, a)
  {
    if assets != [] {
      var init := assets[..|assets| - 1];
      ValidAssetsIff(name, init, a);
      assert assets == init + [assets[|assets| - 1]];
    }
  }

  /** The target tried at step k of the 18-step search: pattern k / 6 with extension k % 6. */
  function Target(name: string, version: string, goos: string, arch: string, k: nat): string
    requires k < 18
  {
    Patterns(name, version, goos, arch)[k / 6] + Extensions[k % 6]
  }

  lemma {:induction false} SearchExtensionsFirst(pattern: string, exts: seq<string>, valid: seq<string>)
    requires GlobFree(pattern) && forall e :: e in exts ==> GlobFree(e)
    ensures match SearchExtensions(pattern, exts, valid)
      case None => forall e :: 0 <= e < |exts| ==> pattern + exts[e] !in valid
      case Some(m) =>
        exists e :: 0 <= e < |exts| && m == Match(pattern + exts[e], RuntimeOf(exts[e]))
          && pattern + exts[e] in valid
          && forall e' :: 0 <= e' < e ==> pattern + exts[e'] !in valid
  {
    if exts != [] {
      GlobFreeConcat(pattern, exts[0]);
      SearchExtensionsFirst(pattern, exts[1..], valid);
      match FirstMatching(pattern + exts[0], valid)
      case Some(j) =>
        assert SearchExtensions(pattern, exts, valid) == Some(Match(pattern + exts[0], RuntimeOf(exts[0])));
      case None =>
        assert pattern + exts[0] !in valid;
        match SearchExtensions(pattern, exts[1..], valid)
        case None =>
          forall e | 0 <= e < |exts| ensures pattern + exts[e] !in valid {
            if e > 0 { assert exts[e] == exts[1..][e - 1]; }
          }
        case Some(m) =>
          var e :| 0 <= e < |exts[1..]| && m == Match(pattern + exts[1..][e], RuntimeOf(exts[1..][e]))
            && pattern + exts[1..][e] in valid
            && forall e' :: 0 <= e' < e ==> pattern + exts[1..][e'] !in valid;
          forall e' | 0 <= e' < e + 1 ensures pattern + exts[e'] !in valid {
            if e' > 0 { assert exts[e'] == exts[1..][e' - 1]; }
          }
    }
  }

  lemma {:induction false} SearchPatternsFirst(name: string, version: string, goos: string, arch: string,
                                               pi: nat, valid: seq<string>)
    requires GlobFree(name) && GlobFree(version) && GlobFree(goos) && GlobFree(arch)
    requires pi <= 3
    ensures (PatternsGlobFree(name, version, goos, arch);
      var ps := Patterns(name, version, goos, arch);
      match SearchPatterns(ps[pi..], valid)
      case None => forall k :: 6 * pi <= k < 18 ==> Target(name, version, goos, arch, k) !in valid
      case Some(m) =>
        exists k :: 6 * pi <= k < 18 && m.asset == Target(name, version, goos, arch, k)
          && m.runtime == RuntimeOf(Extensions[k % 6]) && m.asset in valid
          && forall k' :: 6 * pi <= k' < k ==> Target(name, version, goos, arch, k') !in valid)
    decreases 3 - pi
  {
    PatternsGlobFree(name, version, goos, arch);
    ExtensionsGlobFree();
    var ps := Patterns(name, version, goos, arch);
    if pi < 3 {
      assert ps[pi..][0] == ps[pi] && ps[pi..][1..] == ps[pi + 1..];
      SearchExtensionsFirst(ps[pi], Extensions, valid);
      SearchPatternsFirst(name, version, goos, arch, pi + 1, valid);
      match SearchExtensions(ps[pi], Extensions, valid)
      case Some(m) =>
        var e :| 0 <= e < 6 && m == Match(ps[pi] + Extensions[e], RuntimeOf(Extensions[e]))
          && ps[pi] + Extensions[e] in valid
          && forall e' :: 0 <= e' < e ==> ps[pi] + Extensions[e'] !in valid;
        var k := 6 * pi + e;
        assert k / 6 == pi && k % 6 == e;
        forall k' | 6 * pi <= k' < k ensures Target(name, version, goos, arch, k') !in valid {
          assert k' / 6 == pi && k' % 6 == k' - 6 * pi;
        }
      case None =>
        forall k | 6 * pi <= k < 6 * pi + 6 ensures Target(name, version, goos, arch, k) !in valid {
          assert k / 6 == pi && k % 6 == k - 6 * pi;
        }
    }
  }

  /** Nothing but an asset that passes the filter is ever returned. */
  lemma FindAssetKeepsFilter(prefix: string, name: string, version: string, goos: string, arch: string,
                             assets: seq<string>)
    requires GlobFree(name) && GlobFree(version) && GlobFree(goos) && GlobFree(arch)
    ensures var r := FindAssetSpec(prefix, name, version, goos, arch, assets);
      r.Ok? ==> r.value.asset in assets && Keep(name, r.value.asset)
  {
    var r := FindAssetSpec(prefix, name, version, goos, arch, assets);
    if r.Ok? {
      SearchPatternsFirst(name, version, goos, arch, 0, ValidAssets(name, assets));
      ValidAssetsIff(name, assets, r.value.asset);
    }
  }

  /** The search is not started when nothing survives the filter, and only then does that error come back. */
  lemma FindAssetNoCandidates(prefix: string, name: string, version: string, goos: string, arch: string,
                              assets: seq<string>)
    requires GlobFree(name) && GlobFree(version) && GlobFree(goos) && GlobFree(arch)
    ensures FindAssetSpec(prefix, name, version, goos, arch, assets) == Err(NoValidAssets(prefix, name))
        <==> forall a :: a in assets ==> !Keep(name, a)
  {
    var valid := ValidAssets(name, assets);
    if valid != [] {
      ValidAssetsIff(name, assets, valid[0]);
    } else {
      forall a | a in assets ensures !Keep(name, a) {
        ValidAssetsIff(name, assets, a);
      }
    }
  }

  /**
   * The result is the first hit in the order pattern > extension > candidate,
   * and its runtime is the one its extension stands for.
   */
  lemma FindAssetFirstHit(prefix: string, name: string, version: string, goos: string, arch: string,
                          assets: seq<string>, m: Match)
    requires GlobFree(name) && GlobFree(version) && GlobFree(goos) && GlobFree(arch)
    requires FindAssetSpec(prefix, name, version, goos, arch, assets) == Ok(m)
    ensures exists k ::
              && 0 <= k < 18 && m.asset == Target(name, version, goos, arch, k)
              && m.runtime == RuntimeOf(Extensions[k % 6]) && m.asset in ValidAssets(name, assets)
              && forall k' :: 0 <= k' < k ==> Target(name, version, goos, arch, k') !in ValidAssets(name, assets)
  {
    SearchPatternsFirst(name, version, goos, arch, 0, ValidAssets(name, assets));
    assert Patterns(name, version, goos, arch)[0..] == Patterns(name, version, goos, arch);
  }

  /** "No match" comes back exactly when candidates exist but none of the 18 targets is among them. */
  lemma FindAssetNoMatch(prefix: string, name: string, version: string, goos: string, arch: string,
                         assets: seq<string>)
    requires GlobFree(name) && GlobFree(version) && GlobFree(goos) && GlobFree(arch)
    ensures FindAssetSpec(prefix, name, version, goos, arch, assets) == Err(NoMatchingAsset)
        <==> ValidAssets(name, assets) != []
             && forall k :: 0 <= k < 18 ==> Target(name, version, goos, arch, k) !in ValidAssets(name, assets)
  {
    var valid := ValidAssets(name, assets);
    SearchPatternsFirst(name, version, goos, arch, 0, valid);
    assert Patterns(name, version, goos, arch)[0..] == Patterns(name, version, goos, arch);
  }

  lemma {:induction false} NoWasmWithoutW(s: string)
    requires forall i :: 0 <= i < |s| ==> s[i] != 'w'
    ensures !Contains(s, "wasm")
  {
    if |s| > 0 {
      NoWasmWithoutW(s[1..]);
      assert !HasPrefix(s, "wasm") by {
        if |s| >= 4 { assert s[..4][0] == s[0]; }
      }
    }
  }

  /** Of the six extensions only ".wasm" makes the runtime "wasm". */
  lemma RuntimeWasmIff(k: nat)
    requires k < 6
    ensures RuntimeOf(Extensions[k]) == "wasm" <==> Extensions[k] == ".wasm"
  {
    if k < 5 {
      NoWasmWithoutW(Extensions[k]);
    } else {
      assert HasPrefix(".wasm"[1..], "wasm");
    }
  }

  lemma {:induction false} ValidAssetsAllKept(name: string, assets: seq<string>)
    requires forall a :: a in assets ==> Keep(name, a)
    ensures ValidAssets(name, assets) == assets
  {
    if assets != [] {
      ValidAssetsAllKept(name, assets[..|assets| - 1]);
    }
  }

  /** A target that is the first of the 18 to be among the candidates is what FindAsset returns. */
  lemma FindAssetAt(prefix: string, name: string, version: string, goos: string, arch: string,
                    assets: seq<string>, k: nat)
    requires GlobFree(name) && GlobFree(version) && GlobFree(goos) && GlobFree(arch)
    requires k < 18 && Target(name, version, goos, arch, k) in ValidAssets(name, assets)
    requires forall k' :: 0 <= k' < k ==> Target(name, version, goos, arch, k') !in ValidAssets(name, assets)
    ensures FindAssetSpec(prefix, name, version, goos, arch, assets)
         == Ok(Match(Target(name, version, goos, arch, k), RuntimeOf(Extensions[k % 6])))
  {
    var valid := ValidAssets(name, assets);
    FindAssetNoMatch(prefix, name, version, goos, arch, assets);
    var r := FindAssetSpec(prefix, name, version, goos, arch, assets);
    assert r != Err(NoValidAssets(prefix, name));
    if r.Ok? {
      FindAssetFirstHit(prefix, name, version, goos, arch, assets, r.value);
      var k'' :|
        && 0 <= k'' < 18 && r.value.asset == Target(name, version, goos, arch, k'')
        && r.value.runtime == RuntimeOf(Extensions[k'' % 6]) && r.value.asset in valid
        && forall k' :: 0 <= k' < k'' ==> Target(name, version, goos, arch, k') !in valid;
      assert k'' == k;
    }
  }

  lemma TarballTargets(k: nat)
    requires k <= 3
    ensures k < 3 ==> |Target("tool", "1.0.0", "linux", "amd64", k)| !in {29, 14, 4}
    ensures k == 3 ==> Target("tool", "1.0.0", "linux", "amd64", k) == "tool-1.0.0-linux-amd64.tar.gz"
  {
    assert Extensions[3] == ".tar.gz";
    assert Patterns("tool", "1.0.0", "linux", "amd64")[0] == "tool-1.0.0-linux-amd64";
  }

  lemma WasmTargets(k: nat)
    requires k <= 17
    ensures k < 17 ==> |Target("tool", "1.0.0", "linux", "amd64", k)| != 9
    ensures k == 17 ==> Target("tool", "1.0.0", "linux", "amd64", k) == "tool.wasm"
  {
  }

  lemma ExampleGlobFree()
    ensures GlobFree("tool") && GlobFree("1.0.0") && GlobFree("linux") && GlobFree("amd64")
  {
  }

  lemma ExampleAssetsKept()
    ensures Keep("tool", "tool-1.0.0-linux-amd64.tar.gz") && Keep("tool", "tool-1.0.0.zip")
    ensures Keep("tool", "tool") && Keep("tool", "tool.wasm")
  {
    assert "tool-1.0.0-linux-amd64.tar.gz"[..4] == "tool";
    assert "tool-1.0.0.zip"[..4] == "tool";
    assert "tool.wasm"[..4] == "tool";
  }

  /** The platform-qualified tarball wins over the version-only zip and the bare name. */
  lemma ExamplePlatformTarball(name: string, version: string, goos: string, arch: string, assets: seq<string>)
    requires name == "tool" && version == "1.0.0" && goos == "linux" && arch == "amd64"
    requires assets == ["tool-1.0.0-linux-amd64.tar.gz", "tool-1.0.0.zip", "tool"]
    ensures FindAssetSpec("dashboard", name, version, goos, arch, assets)
         == Ok(Match("tool-1.0.0-linux-amd64.tar.gz", "exec"))
  {
    TarballFirst(name, version, goos, arch, assets);
    ExampleGlobFree();
    FindAssetAt("dashboard", name, version, goos, arch, assets, 3);
    NoWasmWithoutW(".tar.gz");
    assert Extensions[3 % 6] == ".tar.gz";
  }

  lemma TarballFirst(name: string, version: string, goos: string, arch: string, assets: seq<string>)
    requires name == "tool" && version == "1.0.0" && goos == "linux" && arch == "amd64"
    requires assets == ["tool-1.0.0-linux-amd64.tar.gz", "tool-1.0.0.zip", "tool"]
    ensures Target(name, version, goos, arch, 3) == "tool-1.0.0-linux-amd64.tar.gz"
    ensures Target(name, version, goos, arch, 3) in ValidAssets(name, assets)
    ensures forall k :: 0 <= k < 3 ==> Target(name, version, goos, arch, k) !in ValidAssets(name, assets)
  {
    ExampleAssetsKept();
    ValidAssetsAllKept(name, assets);
    assert |assets[0]| == 29 && |assets[1]| == 14 && |assets[2]| == 4;
    forall k | 0 <= k < 3 ensures Target(name, version, goos, arch, k) !in assets {
      TarballTargets(k);
      var x := Target(name, version, goos, arch, k);
      assert x != assets[0] && x != assets[1] && x != assets[2];
    }
    TarballTargets(3);
    assert Target(name, version, goos, arch, 3) == assets[0];
  }

  /** A lone WebAssembly module is found under the bare name and classified "wasm". */
  lemma ExampleWasmOnly(name: string, version: string, goos: string, arch: string, assets: seq<string>)
    requires name == "tool" && version == "1.0.0" && goos == "linux" && arch == "amd64"
    requires assets == ["tool.wasm"]
    ensures FindAssetSpec("dashboard", name, version, goos, arch, assets) == Ok(Match("tool.wasm", "wasm"))
  {
    ExampleAssetsKept();
    ValidAssetsAllKept(name, assets);
    forall k | 0 <= k < 17 ensures Target(name, version, goos, arch, k) !in ValidAssets(name, assets) {
      WasmTargets(k);
    }
    WasmTargets(17);
    ExampleGlobFree();
    FindAssetAt("dashboard", name, version, goos, arch, assets, 17);
    RuntimeWasmIff(5);
    assert Extensions[17 % 6] == ".wasm";
  }

  // ---------------------------------------------------------------- Filter

  const Oses: seq<string> := ["linux", "windows", "macos"]
  const Arches: seq<string> := ["amd64", "386", "arm", "arm64"]

  /** The extension classes of Filter, keyed as in asset.go. */
  const ExtensionClasses: map<string, seq<string>> := map[
    "native" := ["", ".exe"],
    "archive" := [".zip", ".tar.gz", ".tgz"],
    "wasm" := [".wasm", ".wasm.zip", ".wasm.tar.gz", ".wasm.tgz"]
  ]

  /** The pattern for the k-th (OS, architecture) pair, OS-major. */
  function PlatformPattern(prefix: string, name: string, version: string, k: nat): string
    requires k < 12
  {
    prefix + "-" + name + "-v" + version + "-" + Oses[k / 4] + "-" + Arches[k % 4]
  }

  /** The 14 name patterns: two base patterns, then one per platform. */
  function FilterPatterns(prefix: string, name: string, version: string): seq<string> {
    [prefix + "-" + name, prefix + "-" + name + "-v" + version]
      + seq(12, k requires 0 <= k < 12 => PlatformPattern(prefix, name, version, k))
  }

  function Elements(s: seq<string>): set<string> {
    set x | x in s
  }

  /** Every extension of every class. */
  function ClassExtensions(classes: map<string, seq<string>>): set<string> {
    set c, e | c in classes && e in classes[c] :: e
  }

  /** Every pattern followed by every extension. */
  function Combine(patterns: set<string>, exts: set<string>): set<string> {
    set p, e | p in patterns && e in exts :: p + e
  }

  lemma CombineUnion(p1: set<string>, p2: set<string>, exts: set<string>)
    ensures Combine(p1 + p2, exts) == Combine(p1, exts) + Combine(p2, exts)
  {
  }

  lemma CombineUnionRight(ps: set<string>, e1: set<string>, e2: set<string>)
    ensures Combine(ps, e1 + e2) == Combine(ps, e1) + Combine(ps, e2)
  {
  }

  lemma ClassExtensionsAdd(classes: map<string, seq<string>>, remaining: set<string>, c: string)
    requires c in remaining && remaining <= classes.Keys
    ensures ClassExtensions(classes - (remaining - {c}))
         == ClassExtensions(classes - remaining) + Elements(classes[c])
  {
    var after := classes - (remaining - {c});
    var before := classes - remaining;
    assert after == before[c := classes[c]];
    forall e | e in ClassExtensions(after)
      ensures e in ClassExtensions(before) + Elements(classes[c])
    {
      var c' :| c' in after && e in after[c'];
      if c' != c {
        assert c' in before && e in before[c'];
      }
    }
    forall e | e in ClassExtensions(before) + Elements(classes[c])
      ensures e in ClassExtensions(after)
    {
      if e in Elements(classes[c]) {
        assert c in after && e in after[c];
      } else {
        var c' :| c' in before && e in before[c'];
        assert c' in after && e in after[c'];
      }
    }
  }

  /** The names Filter accepts. */
  function AllowedNames(prefix: string, name: string, version: string): set<string> {
    Combine(Elements(FilterPatterns(prefix, name, version)), ClassExtensions(ExtensionClasses))
  }

  /** The elements of `s` that lie in `allowed`, in order, duplicates kept. */
  function Select(s: seq<string>, allowed: set<string>): seq<string> {
    if s == [] then []
    else Select(s[..|s| - 1], allowed) + (if s[|s| - 1] in allowed then [s[|s| - 1]] else [])
  }

  /** The pattern list of Filter: the two base patterns, then one per (OS, architecture), OS-major. */
  method BuildPatterns(prefix: string, name: string, version: string) returns (patterns: seq<string>)
    ensures patterns == FilterPatterns(prefix, name, version)
  {
    patterns := [prefix + "-" + name, prefix + "-" + name + "-v" + version];
    ghost var all := FilterPatterns(prefix, name, version);
    for oi := 0 to |Oses|
      invariant patterns == all[..2 + 4 * oi]
    {
      for ai := 0 to |Arches|
        invariant patterns == all[..2 + 4 * oi + ai]
      {
        assert all[2 + 4 * oi + ai] == PlatformPattern(prefix, name, version, 4 * oi + ai);
        assert (4 * oi + ai) / 4 == oi && (4 * oi + ai) % 4 == ai;
        patterns := patterns + [prefix + "-" + name + "-v" + version + "-" + Oses[oi] + "-" + Arches[ai]];
        assert patterns == all[..2 + 4 * oi + ai + 1];
      }
    }
    assert patterns == all;
  }

  /**
   * The accepted-name set of Filter: every pattern followed by every extension of
   * every class. The classes are visited in an unspecified order, as Go's map iteration is.
   */
  method AcceptedNames(patterns: seq<string>, classes: map<string, seq<string>>)
    returns (validAssets: set<string>)
    ensures validAssets == Combine(Elements(patterns), ClassExtensions(classes))
  {
    validAssets := {};
    for pi := 0 to |patterns|
      invariant validAssets == Combine(Elements(patterns[..pi]), ClassExtensions(classes))
    {
      var pattern := patterns[pi];
      var remaining := classes.Keys;
      while remaining != {}
        invariant remaining <= classes.Keys
        invariant validAssets == Combine(Elements(patterns[..pi]), ClassExtensions(classes))
                               + Combine({pattern}, ClassExtensions(classes - remaining))
        decreases remaining
      {
        var c :| c in remaining;
        var extList := classes[c];
        for j := 0 to |extList|
          invariant validAssets == Combine(Elements(patterns[..pi]), ClassExtensions(classes))
                                 + Combine({pattern}, ClassExtensions(classes - remaining))
                                 + Combine({pattern}, Elements(extList[..j]))
        {
          validAssets := validAssets + {pattern + extList[j]};
        }
        ClassExtensionsAdd(classes, remaining, c);
        CombineUnionRight({pattern}, ClassExtensions(classes - remaining), Elements(extList));
        assert extList[..|extList|] == extList;
        remaining := remaining - {c};
      }
      assert classes - remaining == classes;
      assert Elements(patterns[..pi + 1]) == Elements(patterns[..pi]) + {pattern} by {
        assert patterns[..pi + 1] == patterns[..pi] + [pattern];
      }
      CombineUnion(Elements(patterns[..pi]), {pattern}, ClassExtensions(classes));
    }
    assert patterns[..|patterns|] == patterns;
  }

  /** Filter (asset.go): the offered names that are accepted, in their original order. */
  method Filter(prefix: string, name: string, version: string, assetNames: seq<string>)
    returns (result: seq<string>)
    ensures result == Select(assetNames, AllowedNames(prefix, name, version))
  {
    var patterns := BuildPatterns(prefix, name, version);
    var validAssets := AcceptedNames(patterns, ExtensionClasses);

    result := [];
    for i := 0 to |assetNames|
      invariant result == Select(assetNames[..i], validAssets)
    {
      assert assetNames[..i + 1][..i] == assetNames[..i];
      if assetNames[i] in validAssets {
        result := result + [assetNames[i]];
      }
    }
    assert assetNames[..|assetNames|] == assetNames;
  }

  /** A name is kept by Select exactly when it is offered and allowed. */
  lemma {:induction false} SelectMember(s: seq<string>, allowed: set<string>, x: string)
    ensures x in Select(s, allowed) <==> x in s && x in allowed
  {
    if s != [] {
      SelectMember(s[..|s| - 1], allowed, x);
      assert s == s[..|s| - 1] + [s[|s| - 1]];
    }
  }

  /** Each allowed name is kept as often as it is offered; any other name never. */
  lemma {:induction false} SelectCount(s: seq<string>, allowed: set<string>, x: string)
    ensures multiset(Select(s, allowed))[x] == if x in allowed then multiset(s)[x] else 0
  {
    if s != [] {
      SelectCount(s[..|s| - 1], allowed, x);
      assert s == s[..|s| - 1] + [s[|s| - 1]];
    }
  }

  /** Select keeps the input order: it distributes over concatenation. */
  lemma {:induction false} SelectAppend(s1: seq<string>, s2: seq<string>, allowed: set<string>)
    ensures Select(s1 + s2, allowed) == Select(s1, allowed) + Select(s2, allowed)
    decreases |s2|
  {
    if s2 == [] {
      assert s1 + s2 == s1;
    } else {
      var init := s2[..|s2| - 1];
      var last := s2[|s2| - 1];
      assert (s1 + s2)[..|s1 + s2| - 1] == s1 + init;
      SelectAppend(s1, init, allowed);
    }
  }

  /** Each extension listed under a class is one of the class extensions. */
  lemma ClassExtensionsMember(classes: map<string, seq<string>>, c: string, i: nat)
    requires c in classes && i < |classes[c]|
    ensures classes[c][i] in ClassExtensions(classes)
  {
    var e := classes[c][i];
    assert c in classes && e in classes[c];
  }

  /** The nine extensions of the three classes. */
  lemma ClassExtensionsValue()
    ensures ClassExtensions(ExtensionClasses)
         == {"", ".exe", ".zip", ".tar.gz", ".tgz", ".wasm", ".wasm.zip", ".wasm.tar.gz", ".wasm.tgz"}
  {
    var all := ClassExtensions(ExtensionClasses);
    var nine := {"", ".exe", ".zip", ".tar.gz", ".tgz", ".wasm", ".wasm.zip", ".wasm.tar.gz", ".wasm.tgz"};
    forall c, i | c in ExtensionClasses && 0 <= i < |ExtensionClasses[c]|
      ensures ExtensionClasses[c][i] in all && ExtensionClasses[c][i] in nine
    {
      ClassExtensionsMember(ExtensionClasses, c, i);
    }
    forall c | c in ExtensionClasses
      ensures forall e | e in ExtensionClasses[c] :: e in all
    {
      forall e | e in ExtensionClasses[c] ensures e in all {
        var i :| 0 <= i < |ExtensionClasses[c]| && ExtensionClasses[c][i] == e;
        ClassExtensionsMember(ExtensionClasses, c, i);
      }
    }
    assert "" in ExtensionClasses["native"] && ".exe" in ExtensionClasses["native"];
    assert ".zip" in ExtensionClasses["archive"] && ".tar.gz" in ExtensionClasses["archive"];
    assert ".tgz" in ExtensionClasses["archive"] && ".wasm" in ExtensionClasses["wasm"];
    assert ".wasm.zip" in ExtensionClasses["wasm"] && ".wasm.tar.gz" in ExtensionClasses["wasm"];
    assert ".wasm.tgz" in ExtensionClasses["wasm"];
    forall e | e in all ensures e in nine {
      var c, i :| c in ExtensionClasses && 0 <= i < |ExtensionClasses[c]| && ExtensionClasses[c][i] == e;
    }
  }

  lemma PrefixConcat(s: string, t: string, p: string)
    requires HasPrefix(s, p)
    ensures HasPrefix(s + t, p)
  {
    assert (s + t)[..|p|] == s[..|p|];
  }

  /** Every pattern of Filter starts with `<prefix>-<name>`. */
  lemma FilterPatternsPrefix(prefix: string, name: string, version: string, i: nat)
    requires i < 14
    ensures HasPrefix(FilterPatterns(prefix, name, version)[i], prefix + "-" + name)
  {
    var base := prefix + "-" + name;
    var pats := FilterPatterns(prefix, name, version);
    assert base[..|base|] == base;
    if i == 1 {
      assert pats[1] == base + ("-v" + version);
      PrefixConcat(base, "-v" + version, base);
    } else if i >= 2 {
      assert pats[i] == PlatformPattern(prefix, name, version, i - 2);
      PlatformPatternPrefix(prefix, name, version, i - 2);
    }
  }

  lemma PlatformPatternPrefix(prefix: string, name: string, version: string, k: nat)
    requires k < 12
    ensures HasPrefix(PlatformPattern(prefix, name, version, k), prefix + "-" + name)
  {
    var base := prefix + "-" + name;
    var rest := "-v" + version + "-" + Oses[k / 4] + "-" + Arches[k % 4];
    assert PlatformPattern(prefix, name, version, k) == base + rest;
    assert (base + rest)[..|base|] == base;
  }

  /** Every name Filter accepts starts with `<prefix>-<name>`. */
  lemma AllowedNamesPrefix(prefix: string, name: string, version: string, a: string)
    requires a in AllowedNames(prefix, name, version)
    ensures HasPrefix(a, prefix + "-" + name)
  {
    var pats := FilterPatterns(prefix, name, version);
    var p, e :| p in Elements(pats) && e in ClassExtensions(ExtensionClasses) && a == p + e;
    var i :| 0 <= i < |pats| && pats[i] == p;
    FilterPatternsPrefix(prefix, name, version, i);
    PrefixConcat(p, e, prefix + "-" + name);
  }

  /**
   * Filter and FindAsset follow different naming schemes: the name FindAsset picks
   * for linux/amd64 is not accepted by Filter unless it happens to begin with
   * "<prefix>-<name>" (for the prefix "dashboard" and the name "tool", it does not).
   */
  lemma FilterRejectsFindAssetName(prefix: string, name: string, version: string)
    requires !HasPrefix(name + "-" + version + "-linux-amd64.tar.gz", prefix + "-" + name)
    ensures name + "-" + version + "-linux-amd64.tar.gz" !in AllowedNames(prefix, name, version)
  {
    var a := name + "-" + version + "-linux-amd64.tar.gz";
    if a in AllowedNames(prefix, name, version) {
      AllowedNamesPrefix(prefix, name, version, a);
    }
  }

  /** The platform tarball with a `v`-prefixed version is accepted. */
  lemma FilterAcceptsPlatformTarball(prefix: string, name: string, version: string)
    ensures prefix + "-" + name + "-v" + version + "-linux-amd64.tar.gz" in AllowedNames(prefix, name, version)
  {
    var pats := FilterPatterns(prefix, name, version);
    var p := PlatformPattern(prefix, name, version, 0);
    assert pats[2] == p;
    assert p in Elements(pats);
    ClassExtensionsMember(ExtensionClasses, "archive", 1);
    assert ExtensionClasses["archive"][1] == ".tar.gz";
    assert p + ".tar.gz" == prefix + "-" + name + "-v" + version + "-linux-amd64.tar.gz";
  }
}
