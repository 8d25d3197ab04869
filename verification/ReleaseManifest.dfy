/** The bytes of a release manifest that are signed (internal/selfupdate/manifest.go). */
module ReleaseManifest {
  import opened Results
  import opened Sequences
  import opened Text

  datatype Asset = Asset(url: string, sha256: string)

  /** Without its signature. */
  datatype Manifest = Manifest(version: string, publishedAt: string, platforms: map<string, Asset>)

  const SIGNING_V1 := "shellin-release-manifest-v1"

  // --- sorted keys ---

  ghost predicate StrictlySorted(keys: seq<string>) {
    forall i, j :: 0 <= i < j < |keys| ==> StringLess(keys[i], keys[j])
  }

  /** `keys` lists the keys of the platforms in order. */
  ghost predicate IsKeyOrder(keys: seq<string>, platforms: map<string, Asset>) {
    StrictlySorted(keys) && forall k :: k in keys <==> k in platforms
  }

  lemma {:induction false} SortedKeysAreUnique(a: seq<string>, b: seq<string>)
    requires StrictlySorted(a) && StrictlySorted(b) && forall k :: k in a <==> k in b
    ensures a == b
  {
    if a == [] {
      if b != [] {
        NotEmptyEither(b, a);
      }
    } else {
      NotEmptyEither(a, b);
      SameFirst(a, b);
      forall k: string
        ensures k in a[1..] <==> k in b[1..]
      {
        InRest(a, k);
        InRest(b, k);
      }
      SortedKeysAreUnique(a[1..], b[1..]);
      assert a == [a[0]] + a[1..] && b == [b[0]] + b[1..];
    }
  }

  lemma NotEmptyEither(a: seq<string>, b: seq<string>)
    requires a != [] && forall k :: k in a <==> k in b
    ensures b != []
  {
    assert a[0] in a;
  }

  lemma SameFirst(a: seq<string>, b: seq<string>)
    requires StrictlySorted(a) && StrictlySorted(b) && a != [] && b != [] && forall k :: k in a <==> k in b
    ensures a[0] == b[0]
  {
    assert a[0] in b && b[0] in a;
    var i :| 0 <= i < |b| && b[i] == a[0];
    var j :| 0 <= j < |a| && a[j] == b[0];
    StringLessIsTotal(a[0], b[0]);
  }

  lemma InRest(a: seq<string>, k: string)
    requires StrictlySorted(a) && a != []
    ensures k in a[1..] <==> k in a && k != a[0]
  {
    StringLessIsTotal(k, k);
    if k in a && k != a[0] {
      var i :| 0 <= i < |a| && a[i] == k;
      assert a[1..][i - 1] == k;
    }
  }

  method InsertKey(sorted: seq<string>, key: string) returns (r: seq<string>)
    requires StrictlySorted(sorted) && key !in sorted
    ensures StrictlySorted(r) && forall k :: k in r <==> k in sorted || k == key
  {
    var i := 0;
    while i < |sorted| && StringLess(sorted[i], key)
      invariant i <= |sorted|
      invariant forall j :: 0 <= j < i ==> StringLess(sorted[j], key)
    {
      i := i + 1;
    }
    forall j | i <= j < |sorted|
      ensures StringLess(key, sorted[j])
    {
      StringLessIsTotal(key, sorted[i]);
      if i < j {
        StringLessIsTransitive(key, sorted[i], sorted[j]);
      }
    }
    r := sorted[..i] + [key] + sorted[i..];
    assert sorted == sorted[..i] + sorted[i..];
  }

  /** The keys in whatever order the map hands them out, then sorted. */
  method SortedKeys(platforms: map<string, Asset>) returns (keys: seq<string>)
    ensures IsKeyOrder(keys, platforms)
  {
    keys := [];
    var todo := platforms.Keys;
    while todo != {}
      invariant todo <= platforms.Keys && StrictlySorted(keys)
      invariant forall k :: k in keys <==> k in platforms && k !in todo
      decreases todo
    {
      var key :| key in todo;
      todo := todo - {key};
      keys := InsertKey(keys, key);
    }
  }

  // --- the payload ---

  function Lines(m: Manifest, keys: seq<string>): seq<string>
    requires forall k :: k in keys ==> k in m.platforms
  {
    [SIGNING_V1, "version:" + Trim(m.version), "published_at:" + Trim(m.publishedAt)] + PlatformLines(m.platforms, keys)
  }

  function PlatformLines(platforms: map<string, Asset>, keys: seq<string>): seq<string>
    requires forall k :: k in keys ==> k in platforms
  {
    if keys == [] then []
    else
      var key := keys[|keys| - 1];
      PlatformLines(platforms, keys[..|keys| - 1])
      + ["platform:" + Trim(key), "url:" + Trim(platforms[key].url), "sha256:" + Lower(Trim(platforms[key].sha256))]
  }

  /** The lines, each with a newline behind it. */
  function Unlines(lines: seq<string>): string {
    if lines == [] then "" else Unlines(lines[..|lines| - 1]) + (lines[|lines| - 1] + "\n")
  }

  lemma {:induction false} UnlinesAppend(a: seq<string>, b: seq<string>)
    ensures Unlines(a + b) == Unlines(a) + Unlines(b)
  {
    if b == [] {
      assert a + b == a;
    } else {
      Regroup(a, b);
      UnlinesAppend(a, b[..|b| - 1]);
      Associate(Unlines(a), Unlines(b[..|b| - 1]), b[|b| - 1] + "\n");
      assert Unlines(b) == Unlines(b[..|b| - 1]) + (b[|b| - 1] + "\n");
    }
  }

  lemma UnlinesOne(line: string)
    ensures Unlines([line]) == line + "\n"
  {
    assert [line][..0] == [];
  }

  /** The payload does not depend on the order in which the map hands out its keys. */
  method SigningPayload(m: Manifest) returns (payload: string)
    ensures exists keys :: IsKeyOrder(keys, m.platforms)
    ensures forall keys :: IsKeyOrder(keys, m.platforms) ==> payload == Unlines(Lines(m, keys))
  {
    payload := SIGNING_V1 + "\n";
    payload := payload + ("version:" + Trim(m.version)) + "\n";
    payload := payload + ("published_at:" + Trim(m.publishedAt)) + "\n";
    HeadLines(m);
    var keys := SortedKeys(m.platforms);
    for i := 0 to |keys|
      invariant payload == Unlines(Lines(m, keys[..i]))
    {
      var asset := m.platforms[keys[i]];
      AssetLines(m, keys, i);
      payload := payload + ("platform:" + Trim(keys[i])) + "\n";
      payload := payload + ("url:" + Trim(asset.url)) + "\n";
      payload := payload + ("sha256:" + Lower(Trim(asset.sha256))) + "\n";
    }
    assert keys[..|keys|] == keys;
    forall other | IsKeyOrder(other, m.platforms)
      ensures other == keys
    {
      SortedKeysAreUnique(other, keys);
    }
  }

  lemma HeadLines(m: Manifest)
    ensures Unlines(Lines(m, [])) ==
            SIGNING_V1 + "\n" + ("version:" + Trim(m.version)) + "\n" + ("published_at:" + Trim(m.publishedAt)) + "\n"
  {
    var a, b, c := SIGNING_V1, "version:" + Trim(m.version), "published_at:" + Trim(m.publishedAt);
    ThreeLines(a, b, c);
    assert Lines(m, []) == [a, b, c];
  }

  lemma ThreeLines(a: string, b: string, c: string)
    ensures Unlines([a, b, c]) == a + "\n" + b + "\n" + c + "\n"
  {
    assert [a, b, c] == [a, b] + [c] && [a, b] == [a] + [b];
    UnlinesAppend([a, b], [c]);
    UnlinesAppend([a], [b]);
    UnlinesOne(a);
    UnlinesOne(b);
    UnlinesOne(c);
  }

  lemma AssetLines(m: Manifest, keys: seq<string>, i: nat)
    requires i < |keys| && forall k :: k in keys ==> k in m.platforms
    ensures var asset := m.platforms[keys[i]];
            Unlines(Lines(m, keys[..i + 1])) ==
            Unlines(Lines(m, keys[..i])) + ("platform:" + Trim(keys[i])) + "\n" + ("url:" + Trim(asset.url)) + "\n"
              + ("sha256:" + Lower(Trim(asset.sha256))) + "\n"
  {
    var asset := m.platforms[keys[i]];
    var a, b, c := "platform:" + Trim(keys[i]), "url:" + Trim(asset.url), "sha256:" + Lower(Trim(asset.sha256));
    assert keys[..i + 1][..i] == keys[..i];
    assert Lines(m, keys[..i + 1]) == Lines(m, keys[..i]) + [a, b, c];
    UnlinesAppend(Lines(m, keys[..i]), [a, b, c]);
    ThreeLines(a, b, c);
    ThreeLinesBehind(Unlines(Lines(m, keys[..i])), a, b, c);
  }

  lemma ThreeLinesBehind(s: string, a: string, b: string, c: string)
    ensures s + (a + "\n" + b + "\n" + c + "\n") == s + a + "\n" + b + "\n" + c + "\n"
  {
  }

  /** The payload begins with the name of its format. */
  lemma PayloadBegins(m: Manifest, keys: seq<string>)
    requires forall k :: k in keys ==> k in m.platforms
    ensures "shellin-release-manifest-v1\n" <= Unlines(Lines(m, keys))
  {
    var lines := Lines(m, keys);
    UnlinesBegins(lines);
    assert lines[0] == "shellin-release-manifest-v1";
  }

  lemma UnlinesBegins(lines: seq<string>)
    requires lines != []
    ensures lines[0] + "\n" <= Unlines(lines)
  {
    assert lines == [lines[0]] + lines[1..];
    UnlinesAppend([lines[0]], lines[1..]);
    UnlinesOne(lines[0]);
  }

  // --- reading it back ---

  /** The lines of a text that ends in a newline. */
  function SplitLines(s: string): seq<string> {
    if s == "" then []
    else
      var i := NewlineBefore(s[..|s| - 1]);
      SplitLines(s[..i]) + [s[i..|s| - 1]]
  }

  /** Where the last line of `s` begins. */
  function NewlineBefore(s: string): (i: nat)
    ensures i <= |s|
  {
    if s == "" || s[|s| - 1] == '\n' then |s| else NewlineBefore(s[..|s| - 1])
  }

  lemma {:induction false} LastLineBegins(before: string, line: string)
    requires before == "" || before[|before| - 1] == '\n'
    requires '\n' !in line
    ensures NewlineBefore(before + line) == |before|
  {
    if line == "" {
      assert before + line == before;
    } else {
      assert (before + line)[..|before + line| - 1] == before + line[..|line| - 1];
      LastLineBegins(before, line[..|line| - 1]);
    }
  }

  predicate EndsLine(s: string) {
    s == "" || s[|s| - 1] == '\n'
  }

  lemma SplitOneMore(before: string, line: string)
    requires EndsLine(before) && '\n' !in line
    ensures SplitLines(before + (line + "\n")) == SplitLines(before) + [line]
  {
    var s := before + (line + "\n");
    assert s[..|s| - 1] == before + line;
    LastLineBegins(before, line);
    assert s[..|before|] == before && s[|before|..|s| - 1] == line;
  }

  lemma UnlinesEndsLine(lines: seq<string>)
    ensures EndsLine(Unlines(lines))
  {
  }

  lemma {:induction false} SplitUnlines(lines: seq<string>)
    requires forall l :: l in lines ==> '\n' !in l
    ensures SplitLines(Unlines(lines)) == lines
  {
    if lines != [] {
      var before, line := lines[..|lines| - 1], lines[|lines| - 1];
      SplitUnlines(before);
      UnlinesEndsLine(before);
      SplitOneMore(Unlines(before), line);
      EndsInLast(lines);
    }
  }

  function Strip(prefix: string, line: string): Option<string> {
    if prefix <= line then Some(line[|prefix|..]) else None
  }

  function ParsePlatforms(lines: seq<string>): Option<map<string, Asset>> {
    if lines == [] then Some(map[])
    else if |lines| < 3 then None
    else
      var n := |lines| - 3;
      match (ParsePlatforms(lines[..n]), Strip("platform:", lines[n]), Strip("url:", lines[n + 1]), Strip("sha256:", lines[n + 2]))
      case (Some(platforms), Some(key), Some(url), Some(sha256)) => Some(platforms[key := Asset(url, sha256)])
      case _ => None
  }

  function ParsePayload(payload: string): Option<Manifest> {
    var lines := SplitLines(payload);
    if |lines| < 3 || lines[0] != SIGNING_V1 then None
    else match (Strip("version:", lines[1]), Strip("published_at:", lines[2]), ParsePlatforms(lines[3..]))
         case (Some(version), Some(publishedAt), Some(platforms)) => Some(Manifest(version, publishedAt, platforms))
         case _ => None
  }

  function NormalAsset(a: Asset): Asset {
    Asset(Trim(a.url), Lower(Trim(a.sha256)))
  }

  function Normalized(m: Manifest): Manifest {
    Manifest(Trim(m.version), Trim(m.publishedAt), map k | k in m.platforms :: NormalAsset(m.platforms[k]))
  }

  /** No field breaks a line, and the keys are trimmed. */
  ghost predicate IsClean(m: Manifest) {
    && '\n' !in Trim(m.version) && '\n' !in Trim(m.publishedAt)
    && forall k :: k in m.platforms ==> IsCleanKey(k) && IsCleanAsset(m.platforms[k])
  }

  predicate IsCleanKey(k: string) {
    Trim(k) == k && '\n' !in k
  }

  predicate IsCleanAsset(a: Asset) {
    '\n' !in Trim(a.url) && '\n' !in Trim(a.sha256)
  }

  lemma StripPrefix(prefix: string, rest: string)
    ensures Strip(prefix, prefix + rest) == Some(rest)
  {
    assert (prefix + rest)[|prefix|..] == rest;
  }

  lemma ParseOneMore(lines: seq<string>, platforms: map<string, Asset>, key: string, url: string, sha256: string)
    requires ParsePlatforms(lines) == Some(platforms)
    ensures ParsePlatforms(lines + ["platform:" + key, "url:" + url, "sha256:" + sha256]) == Some(platforms[key := Asset(url, sha256)])
  {
    var more := lines + ["platform:" + key, "url:" + url, "sha256:" + sha256];
    StripPrefix("platform:", key);
    StripPrefix("url:", url);
    StripPrefix("sha256:", sha256);
    assert more[..|more| - 3] == lines;
  }

  /** The normal assets under the given keys. */
  function NormalUnder(platforms: map<string, Asset>, keys: seq<string>): map<string, Asset>
    requires forall k :: k in keys ==> k in platforms
  {
    map k | k in keys :: NormalAsset(platforms[k])
  }

  lemma NormalOneMore(platforms: map<string, Asset>, keys: seq<string>, key: string)
    requires key in platforms && forall k :: k in keys ==> k in platforms
    ensures NormalUnder(platforms, keys + [key]) == NormalUnder(platforms, keys)[key := NormalAsset(platforms[key])]
  {
  }

  lemma {:induction false} PlatformsParse(platforms: map<string, Asset>, keys: seq<string>)
    requires forall k :: k in keys ==> k in platforms && IsCleanKey(k)
    ensures ParsePlatforms(PlatformLines(platforms, keys)) == Some(NormalUnder(platforms, keys))
  {
    if keys != [] {
      var before, key := keys[..|keys| - 1], keys[|keys| - 1];
      var asset := platforms[key];
      EndsInLast(keys);
      PlatformsParse(platforms, before);
      ParseOneMore(PlatformLines(platforms, before), NormalUnder(platforms, before), Trim(key), Trim(asset.url), Lower(Trim(asset.sha256)));
      NormalOneMore(platforms, before, key);
    }
  }

  lemma AssetLinesAreLines(key: string, asset: Asset)
    requires IsCleanKey(key) && IsCleanAsset(asset)
    ensures '\n' !in "platform:" + Trim(key) && '\n' !in "url:" + Trim(asset.url) && '\n' !in "sha256:" + Lower(Trim(asset.sha256))
  {
  }

  lemma ThreeMoreLines(lines: seq<string>, a: string, b: string, c: string)
    requires (forall l :: l in lines ==> '\n' !in l) && '\n' !in a && '\n' !in b && '\n' !in c
    ensures forall l :: l in lines + [a, b, c] ==> '\n' !in l
  {
  }

  lemma {:induction false} PlatformLinesAreLines(platforms: map<string, Asset>, keys: seq<string>)
    requires forall k :: k in keys ==> k in platforms && IsCleanKey(k) && IsCleanAsset(platforms[k])
    ensures forall l :: l in PlatformLines(platforms, keys) ==> '\n' !in l
  {
    if keys != [] {
      var key := keys[|keys| - 1];
      PlatformLinesAreLines(platforms, keys[..|keys| - 1]);
      AssetLinesAreLines(key, platforms[key]);
      ThreeMoreLines(PlatformLines(platforms, keys[..|keys| - 1]),
                     "platform:" + Trim(key), "url:" + Trim(platforms[key].url), "sha256:" + Lower(Trim(platforms[key].sha256)));
    }
  }

  lemma LinesAreLines(m: Manifest, keys: seq<string>)
    requires IsClean(m) && IsKeyOrder(keys, m.platforms)
    ensures forall l :: l in Lines(m, keys) ==> '\n' !in l
  {
    PlatformLinesAreLines(m.platforms, keys);
  }

  /** A clean manifest can be read back from its payload, up to trimming and the case of its digests. */
  lemma PayloadParses(m: Manifest, keys: seq<string>)
    requires IsClean(m) && IsKeyOrder(keys, m.platforms)
    ensures ParsePayload(Unlines(Lines(m, keys))) == Some(Normalized(m))
  {
    LinesAreLines(m, keys);
    SplitUnlines(Lines(m, keys));
    LinesParse(m, keys);
  }

  lemma LinesParse(m: Manifest, keys: seq<string>)
    requires IsClean(m) && IsKeyOrder(keys, m.platforms)
    ensures var lines := Lines(m, keys);
            && |lines| >= 3 && lines[0] == SIGNING_V1
            && Strip("version:", lines[1]) == Some(Trim(m.version))
            && Strip("published_at:", lines[2]) == Some(Trim(m.publishedAt))
            && ParsePlatforms(lines[3..]) == Some(Normalized(m).platforms)
  {
    PlatformsParse(m.platforms, keys);
    StripPrefix("version:", Trim(m.version));
    StripPrefix("published_at:", Trim(m.publishedAt));
    assert Lines(m, keys)[3..] == PlatformLines(m.platforms, keys);
    assert NormalUnder(m.platforms, keys) == Normalized(m).platforms;
  }

  lemma {:induction false} SameNormalSameLines(a: map<string, Asset>, b: map<string, Asset>, keys: seq<string>)
    requires forall k :: k in keys ==> k in a && k in b && NormalAsset(a[k]) == NormalAsset(b[k])
    ensures PlatformLines(a, keys) == PlatformLines(b, keys)
  {
    if keys != [] {
      SameNormalSameLines(a, b, keys[..|keys| - 1]);
      var key := keys[|keys| - 1];
      assert NormalAsset(a[key]) == NormalAsset(b[key]);
    }
  }

  lemma SameNormalIff(a: Manifest, b: Manifest)
    ensures Normalized(a) == Normalized(b) <==>
              && Trim(a.version) == Trim(b.version) && Trim(a.publishedAt) == Trim(b.publishedAt)
              && a.platforms.Keys == b.platforms.Keys
              && (forall k :: k in a.platforms ==>
                    && Trim(a.platforms[k].url) == Trim(b.platforms[k].url)
                    && Lower(Trim(a.platforms[k].sha256)) == Lower(Trim(b.platforms[k].sha256)))
  {
    var x, y := Normalized(a).platforms, Normalized(b).platforms;
    assert x.Keys == a.platforms.Keys && y.Keys == b.platforms.Keys;
    if x == y {
      forall k | k in a.platforms
        ensures Trim(a.platforms[k].url) == Trim(b.platforms[k].url)
        ensures Lower(Trim(a.platforms[k].sha256)) == Lower(Trim(b.platforms[k].sha256))
      {
        assert k in x && x[k] == y[k];
      }
    }
  }

  /** Two clean manifests have the same payload exactly when they are the same
      up to trimming and the case of their digests. */
  lemma SamePayloadIffSameManifest(a: Manifest, b: Manifest, aKeys: seq<string>, bKeys: seq<string>)
    requires IsClean(a) && IsClean(b) && IsKeyOrder(aKeys, a.platforms) && IsKeyOrder(bKeys, b.platforms)
    ensures Unlines(Lines(a, aKeys)) == Unlines(Lines(b, bKeys)) <==>
              && Trim(a.version) == Trim(b.version) && Trim(a.publishedAt) == Trim(b.publishedAt)
              && a.platforms.Keys == b.platforms.Keys
              && (forall k :: k in a.platforms ==>
                    && Trim(a.platforms[k].url) == Trim(b.platforms[k].url)
                    && Lower(Trim(a.platforms[k].sha256)) == Lower(Trim(b.platforms[k].sha256)))
  {
    SameNormalIff(a, b);
    PayloadParses(a, aKeys);
    PayloadParses(b, bKeys);
    if Normalized(a) == Normalized(b) {
      var normal := Normalized(a).platforms;
      forall k: string
        ensures k in a.platforms <==> k in normal
        ensures k in b.platforms <==> k in normal
        ensures k in normal ==> NormalAsset(a.platforms[k]) == normal[k] == NormalAsset(b.platforms[k])
      {
        assert k in Normalized(b).platforms <==> k in normal;
      }
      SortedKeysAreUnique(aKeys, bKeys);
      SameNormalSameLines(a.platforms, b.platforms, aKeys);
    }
  }
}
