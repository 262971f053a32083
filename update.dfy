/** The self-update decision helpers: reading a release tag as a semantic
    version, naming a downloaded asset, finding the platform's installer
    among a release's assets, telling its installer kind from its URL, and
    choosing how an update is applied. The platform, the release's asset list
    and whether the executable's directory is writable are parameters; the
    downloads, the cache file and the replacement of the executable are not
    modelled. */
module Update {
  import opened Common

  // ---------------------------------------------------------------------
  // Semantic versions

  /** A semantic version; `pre` and `build` are empty when absent. */
  datatype Version = Version(major: nat, minor: nat, patch: nat, pre: string, build: string)

  predicate IdentChar(c: char) { IsAlnum(c) || c == '-' }

  /** One dot-separated identifier of a pre-release or build part; in a
      pre-release a numeric identifier has no leading zero. */
  predicate IdentOk(id: string, strictNumeric: bool)
  {
    id != [] && (forall k :: 0 <= k < |id| ==> IdentChar(id[k]))
      && (strictNumeric && AllDigits(id) ==> |id| == 1 || id[0] != '0')
  }

  predicate IdentsOk(s: string, strictNumeric: bool)
  {
    var ids := Split(s, '.');
    forall k :: 0 <= k < |ids| ==> IdentOk(ids[k], strictNumeric)
  }

  /** A numeric core component: digits, no leading zero, fits in 64 bits. */
  function NumericPart(s: string): (r: Option<nat>)
    ensures r.Some? ==> s != [] && IsDigit(s[0]) && r.value <= U64_MAX
  {
    if s != [] && AllDigits(s) && (|s| == 1 || s[0] != '0') && DigitsValue(s) <= U64_MAX
    then Some(DigitsValue(s)) else None
  }

  /** `semver::Version::parse`: MAJOR.MINOR.PATCH, then an optional
      "-pre-release" and an optional "+build". */
  function ParseVersion(v: string): (r: Option<Version>)
    ensures r.Some? ==> r.value.major <= U64_MAX && r.value.minor <= U64_MAX && r.value.patch <= U64_MAX
  {
    var plus := FindChar(v, '+');
    var head := if plus.Some? then v[..plus.value] else v;
    var build := if plus.Some? then v[plus.value + 1..] else "";
    var minus := FindChar(head, '-');
    var core := if minus.Some? then head[..minus.value] else head;
    var pre := if minus.Some? then head[minus.value + 1..] else "";
    var parts := Split(core, '.');
    if plus.Some? && !IdentsOk(build, false) then None
    else if minus.Some? && !IdentsOk(pre, true) then None
    else if |parts| != 3 then None
    else match (NumericPart(parts[0]), NumericPart(parts[1]), NumericPart(parts[2]))
      case (Some(ma), Some(mi), Some(pa)) => Some(Version(ma, mi, pa, pre, build))
      case _ => None
  }

  /** `parse_tag_version`: trims the tag and drops one leading 'v'. */
  function ParseTagVersion(tag: string): (r: Option<Version>)
    ensures r.Some? ==> Trim(tag) != []
    ensures r.Some? ==> r.value.major <= U64_MAX && r.value.minor <= U64_MAX && r.value.patch <= U64_MAX
  {
    var t := Trim(tag);
    var v := if t != [] && t[0] == 'v' then t[1..] else t;
    if ParseVersion(v).Some? then ParsedStartsWithDigit(v); ParseVersion(v) else None
  }

  /** The text of a version's numeric core. */
  function CoreText(major: nat, minor: nat, patch: nat): string
  {
    NatToString(major) + "." + NatToString(minor) + "." + NatToString(patch)
  }

  /** Only "0" starts with the digit zero. */
  lemma {:induction false} NatToStringNoLeadingZero(n: nat)
    ensures |NatToString(n)| > 1 ==> NatToString(n)[0] != '0'
  {
    if n >= 10 {
      NatToStringNoLeadingZero(n / 10);
      assert NatToString(n)[0] == NatToString(n / 10)[0];
    }
  }

  lemma NumericPartOfNat(n: nat)
    requires n <= U64_MAX
    ensures NumericPart(NatToString(n)) == Some(n)
  {
    NatToStringNoLeadingZero(n);
    NatToStringValue(n);
  }

  lemma DigitsHaveNo(s: string, c: char)
    requires AllDigits(s) && !IsDigit(c)
    ensures c !in s
  {
  }

  /** The core text splits into its three numbers. */
  lemma CoreTextParts(major: nat, minor: nat, patch: nat)
    ensures Split(CoreText(major, minor, patch), '.') == [NatToString(major), NatToString(minor), NatToString(patch)]
  {
    var a, b, c := NatToString(major), NatToString(minor), NatToString(patch);
    DigitsHaveNo(a, '.');
    DigitsHaveNo(b, '.');
    DigitsHaveNo(c, '.');
    assert CoreText(major, minor, patch) == a + ['.'] + (b + ['.'] + c);
    SplitCons(a, '.', b + ['.'] + c);
    SplitCons(b, '.', c);
    assert FindChar(c, '.').None?;
  }

  lemma CoreTextChars(major: nat, minor: nat, patch: nat)
    ensures '+' !in CoreText(major, minor, patch) && '-' !in CoreText(major, minor, patch)
    ensures NoSpace(CoreText(major, minor, patch))
    ensures IsDigit(CoreText(major, minor, patch)[0])
  {
    var a, b, c := NatToString(major), NatToString(minor), NatToString(patch);
    var s := CoreText(major, minor, patch);
    assert s == a + ['.'] + b + ['.'] + c;
    assert forall k :: 0 <= k < |s| ==> IsDigit(s[k]) || s[k] == '.' by {
      forall k | 0 <= k < |s|
        ensures IsDigit(s[k]) || s[k] == '.'
      {
        if k < |a| { assert s[k] == a[k]; }
        else if k == |a| { }
        else if k < |a| + 1 + |b| { assert s[k] == b[k - |a| - 1]; }
        else if k == |a| + 1 + |b| { }
        else { assert s[k] == c[k - |a| - |b| - 2]; }
      }
    }
  }

  /** Printing a release version's core and parsing it back gives it. */
  lemma ParseCoreText(major: nat, minor: nat, patch: nat)
    requires major <= U64_MAX && minor <= U64_MAX && patch <= U64_MAX
    ensures ParseVersion(CoreText(major, minor, patch)) == Some(Version(major, minor, patch, "", ""))
  {
    CoreTextChars(major, minor, patch);
    CoreTextParts(major, minor, patch);
    NumericPartOfNat(major);
    NumericPartOfNat(minor);
    NumericPartOfNat(patch);
  }

  /** A bare version tag is read as that version. */
  lemma TagWithoutV(major: nat, minor: nat, patch: nat)
    requires major <= U64_MAX && minor <= U64_MAX && patch <= U64_MAX
    ensures ParseTagVersion(CoreText(major, minor, patch)) == Some(Version(major, minor, patch, "", ""))
  {
    var s := CoreText(major, minor, patch);
    ParseCoreText(major, minor, patch);
    CoreTextChars(major, minor, patch);
    NoSpaceTrimWords(s);
  }

  /** A 'v'-prefixed tag is read as the version after the 'v'. */
  lemma TagWithV(major: nat, minor: nat, patch: nat)
    requires major <= U64_MAX && minor <= U64_MAX && patch <= U64_MAX
    ensures ParseTagVersion("v" + CoreText(major, minor, patch)) == Some(Version(major, minor, patch, "", ""))
  {
    var s := CoreText(major, minor, patch);
    ParseCoreText(major, minor, patch);
    CoreTextChars(major, minor, patch);
    var vs := "v" + s;
    assert NoSpace(vs) by {
      assert forall k :: 1 <= k < |vs| ==> vs[k] == s[k - 1];
    }
    NoSpaceTrimWords(vs);
    assert vs[1..] == s;
  }

  /** The first piece of a split is a prefix of the text. */
  lemma SplitFirstIsPrefix(s: string, sep: char)
    ensures var p := Split(s, sep)[0]; |p| <= |s| && s[..|p|] == p
  {
  }

  /** A version that parses starts with a digit. */
  lemma ParsedStartsWithDigit(v: string)
    requires ParseVersion(v).Some?
    ensures v != [] && IsDigit(v[0])
  {
    var plus := FindChar(v, '+');
    var head := if plus.Some? then v[..plus.value] else v;
    var minus := FindChar(head, '-');
    var core := if minus.Some? then head[..minus.value] else head;
    SplitFirstIsPrefix(core, '.');
    var p := Split(core, '.')[0];
    assert p != [] && IsDigit(p[0]);
    assert core[0] == p[0];
    assert head[0] == core[0];
  }

  /** `parse_tag_version` strips at most one 'v': a tag that reads as a
      version is, once trimmed, the version itself or 'v' followed by it. */
  lemma TagShape(tag: string)
    requires ParseTagVersion(tag).Some?
    ensures var t := Trim(tag);
      (t != [] && IsDigit(t[0]) && ParseVersion(t) == ParseTagVersion(tag))
      || (|t| >= 2 && t[0] == 'v' && IsDigit(t[1]) && ParseVersion(t[1..]) == ParseTagVersion(tag))
  {
    var t := Trim(tag);
    if t != [] && t[0] == 'v' {
      ParsedStartsWithDigit(t[1..]);
    } else {
      ParsedStartsWithDigit(t);
    }
  }

  /** A tag with two 'v's is not a version. */
  lemma DoubleVRejected(s: string)
    ensures ParseTagVersion("vv" + s) == None
  {
    var t := Trim("vv" + s);
    if ParseTagVersion("vv" + s).Some? {
      TagShape("vv" + s);
      TrimStartIsSuffix("vv" + s);
      TrimEndIsPrefix(TrimStart("vv" + s));
      assert false;
    }
  }

  // ---------------------------------------------------------------------
  // Assets

  /** `asset_name_from_url`: the trimmed text after the URL's last '/',
      None when that is blank. */
  function AssetNameFromUrl(url: string): (r: Option<string>)
    ensures r.Some? ==> r.value != [] && '/' !in r.value
  {
    var pieces := Split(url, '/');
    var last := Trim(pieces[|pieces| - 1]);
    TrimKeepsAbsent(pieces[|pieces| - 1], '/');
    if last == [] then None else Some(last)
  }

  /** Trimming adds no character. */
  lemma TrimKeepsAbsent(s: string, c: char)
    requires c !in s
    ensures c !in Trim(s)
  {
    TrimStartIsSuffix(s);
    TrimEndIsPrefix(TrimStart(s));
  }

  /** The file name after the last slash is the asset's name. */
  lemma AssetNameAfterSlash(prefix: string, name: string)
    requires '/' !in name && NoSpace(name) && name != []
    ensures AssetNameFromUrl(prefix + "/" + name) == Some(name)
  {
    assert prefix + "/" + name == prefix + ['/'] + name;
    SplitLast(prefix, '/', name);
    NoSpaceTrimWords(name);
  }

  /** A URL that ends in a slash has no asset name. */
  lemma AssetNameTrailingSlash(prefix: string)
    ensures AssetNameFromUrl(prefix + "/") == None
  {
    assert prefix + "/" == prefix + ['/'] + [];
    SplitLast(prefix, '/', []);
  }

  datatype Asset = Asset(name: string, downloadUrl: string)

  datatype Platform = Platform(os: string, arch: string)

  /** `Platform::artifact`: the build name of a supported platform. */
  function Artifact(p: Platform): (r: Option<string>)
    ensures r.Some? ==> p.os in {"linux", "macos", "windows"}
    ensures r.Some? ==> p.arch == "x86_64" || p.arch == "aarch64"
  {
    if p.os == "linux" && p.arch == "x86_64" then Some("linux-x86_64")
    else if p.os == "linux" && p.arch == "aarch64" then Some("linux-arm64")
    else if p.os == "macos" && p.arch == "x86_64" then Some("macos-x86_64")
    else if p.os == "macos" && p.arch == "aarch64" then Some("macos-arm64")
    else if p.os == "windows" && p.arch == "x86_64" then Some("windows-x86_64")
    else None
  }

  /** `Platform::binary_name`. */
  function BinaryName(p: Platform): (r: string)
    ensures EndsWith(r, ".exe") <==> p.os == "windows"
  {
    if p.os == "windows" then "gwt.exe" else "gwt"
  }

  /** `Platform::portable_asset_name`: a zip on Windows, a tarball elsewhere. */
  function PortableAssetName(p: Platform): (r: Option<string>)
    ensures r.Some? <==> Artifact(p).Some?
    ensures r.Some? && p.os == "windows" ==> r.value == "gwt-" + Artifact(p).value + ".zip"
    ensures r.Some? && p.os != "windows" ==> r.value == "gwt-" + Artifact(p).value + ".tar.gz"
  {
    match Artifact(p)
    case None => None
    case Some(artifact) =>
      if p.os == "windows" then Some("gwt-" + artifact + ".zip")
      else Some("gwt-" + artifact + ".tar.gz")
  }

  /** `asset_matches_arch` on a lower-cased asset name. */
  predicate AssetMatchesArch(nameLower: string, arch: string)
    ensures Contains(nameLower, arch) ==> AssetMatchesArch(nameLower, arch)
    ensures arch != "aarch64" && arch != "x86_64" ==> AssetMatchesArch(nameLower, arch)
  {
    if arch == "aarch64" then Contains(nameLower, "aarch64") || Contains(nameLower, "arm64")
    else if arch == "x86_64" then
      Contains(nameLower, "x86_64") || Contains(nameLower, "x64") || Contains(nameLower, "amd64")
    else true
  }

  /** The installer names Windows assets are compared with, ignoring ASCII
      case; both are already lower case (WixNameIsLower, LegacyNameIsLower). */
  const WIX_MSI_NAME: string := "gwt-wix-windows-x86_64.msi"
  const LEGACY_MSI_NAME: string := "gwt-windows-x86_64.msi"

  /** Comparing a lower-cased name with these names is comparing ignoring case. */
  lemma WixNameIsLower()
    ensures ToLower(WIX_MSI_NAME) == WIX_MSI_NAME
  {
    NoUpperIsLower(WIX_MSI_NAME);
  }

  lemma LegacyNameIsLower()
    ensures ToLower(LEGACY_MSI_NAME) == LEGACY_MSI_NAME
  {
    NoUpperIsLower(LEGACY_MSI_NAME);
  }

  lemma NoUpperIsLower(s: string)
    requires forall k :: 0 <= k < |s| ==> !IsUpper(s[k])
    ensures ToLower(s) == s
  {
  }

  lemma WindowsNamesAreMsi(l: string)
    requires l == WIX_MSI_NAME || l == LEGACY_MSI_NAME
    ensures EndsWith(l, ".msi")
  {
    if l == WIX_MSI_NAME {
      assert l[22] == '.' && l[23] == 'm' && l[24] == 's' && l[25] == 'i';
    } else {
      assert l[18] == '.' && l[19] == 'm' && l[20] == 's' && l[21] == 'i';
    }
  }

  /** One step of the installer search: which assets it accepts. */
  datatype Tier =
    | ArchExt(ext: string, arch: string)   // lower-cased name ends with ext and matches arch
    | Exact(name: string)                  // name is exactly this
    | ExactIgnoreCase(lower: string)       // lower-cased name is this lower-case text
    | Ext(ext: string)                     // lower-cased name ends with ext

  predicate Matches(t: Tier, a: Asset)
  {
    match t
    case ArchExt(ext, arch) => EndsWith(ToLower(a.name), ext) && AssetMatchesArch(ToLower(a.name), arch)
    case Exact(name) => a.name == name
    case ExactIgnoreCase(lower) => ToLower(a.name) == lower
    case Ext(ext) => EndsWith(ToLower(a.name), ext)
  }

  /** The first asset a tier accepts. */
  function FindAsset(assets: seq<Asset>, t: Tier): (r: Option<nat>)
    ensures r.Some? ==> (r.value < |assets| && Matches(t, assets[r.value]) &&
                         forall j :: 0 <= j < r.value ==> !Matches(t, assets[j]))
    ensures r.None? ==> forall j :: 0 <= j < |assets| ==> !Matches(t, assets[j])
  {
    if assets == [] then None
    else if Matches(t, assets[0]) then Some(0)
    else match FindAsset(assets[1..], t)
      case None => None
      case Some(k) => Some(k + 1)
  }

  /** The download URL of the first asset of the first tier that accepts one. */
  function FirstTierUrl(assets: seq<Asset>, tiers: seq<Tier>): (r: Option<string>)
  {
    if tiers == [] then None
    else match FindAsset(assets, tiers[0])
      case Some(i) => Some(assets[i].downloadUrl)
      case None => FirstTierUrl(assets, tiers[1..])
  }

  /** macOS: an arch-matching DMG, the legacy signed PKG, any DMG, any PKG. */
  function MacTiers(p: Platform): seq<Tier>
  {
    [ArchExt(".dmg", p.arch)]
      + (match Artifact(p) case Some(artifact) => [Exact("gwt-" + artifact + ".pkg")] case None => [])
      + [Ext(".dmg"), Ext(".pkg")]
  }

  /** Windows: the WiX MSI, the legacy MSI, an arch-matching MSI, any MSI. */
  function WindowsTiers(p: Platform): seq<Tier>
  {
    [ExactIgnoreCase(WIX_MSI_NAME), ExactIgnoreCase(LEGACY_MSI_NAME), ArchExt(".msi", p.arch), Ext(".msi")]
  }

  /** `find_installer_asset_url`: only macOS and Windows have installers, and
      what is found is the download URL of one of the release's assets. */
  function FindInstallerAssetUrl(p: Platform, assets: seq<Asset>): (r: Option<string>)
    ensures p.os != "macos" && p.os != "windows" ==> r == None
    ensures r.Some? ==> exists i :: 0 <= i < |assets| && assets[i].downloadUrl == r.value
  {
    if p.os == "macos" then FirstTierUrlIsAsset(assets, MacTiers(p)); FirstTierUrl(assets, MacTiers(p))
    else if p.os == "windows" then FirstTierUrlIsAsset(assets, WindowsTiers(p)); FirstTierUrl(assets, WindowsTiers(p))
    else None
  }

  /** The tiered search finds nothing iff no tier accepts any asset, and what
      it finds is the first accepted asset of the first tier accepting one. */
  lemma FirstTierUrlSpec(assets: seq<Asset>, tiers: seq<Tier>)
    ensures FirstTierUrl(assets, tiers).None? <==>
      forall t, i :: 0 <= t < |tiers| && 0 <= i < |assets| ==> !Matches(tiers[t], assets[i])
    ensures FirstTierUrl(assets, tiers).Some? ==>
      exists t :: 0 <= t < |tiers| && FindAsset(assets, tiers[t]).Some?
        && FirstTierUrl(assets, tiers).value == assets[FindAsset(assets, tiers[t]).value].downloadUrl
        && (forall u :: 0 <= u < t ==> FindAsset(assets, tiers[u]).None?)
  {
    FirstTierUrlNone(assets, tiers);
    FirstTierUrlFirst(assets, tiers);
    if FirstTierUrl(assets, tiers).Some? {
      var t :| 0 <= t < |tiers| && FindAsset(assets, tiers[t]).Some?;
      assert Matches(tiers[t], assets[FindAsset(assets, tiers[t]).value]);
    }
  }

  /** Nothing is found iff every tier's search comes back empty. */
  lemma {:induction false} FirstTierUrlNone(assets: seq<Asset>, tiers: seq<Tier>)
    ensures FirstTierUrl(assets, tiers).None? <==> forall t :: 0 <= t < |tiers| ==> FindAsset(assets, tiers[t]).None?
  {
    if tiers != [] {
      FirstTierUrlNone(assets, tiers[1..]);
      if FindAsset(assets, tiers[0]).None? {
        forall t | 0 < t < |tiers|
          ensures tiers[t] == tiers[1..][t - 1]
        {
        }
      }
    }
  }

  /** What is found comes from the first tier whose search finds an asset. */
  lemma FirstTierUrlFirst(assets: seq<Asset>, tiers: seq<Tier>)
    ensures FirstTierUrl(assets, tiers).Some? ==>
      exists t :: 0 <= t < |tiers| && FindAsset(assets, tiers[t]).Some?
        && FirstTierUrl(assets, tiers).value == assets[FindAsset(assets, tiers[t]).value].downloadUrl
        && (forall u :: 0 <= u < t ==> FindAsset(assets, tiers[u]).None?)
  {
    var find := (t: Tier) => FindAsset(assets, t);
    FirstTierUrlHit(assets, tiers, find);
    var h := FirstHit(tiers, find);
    if h.Some? {
      var t := h.value;
      assert find(tiers[t]).Some?;
      forall u | 0 <= u < t
        ensures FindAsset(assets, tiers[u]).None?
      {
        assert find(tiers[u]).None?;
      }
    }
  }

  /** The index of the first element on which `f` finds something. */
  function FirstHit<T>(s: seq<T>, f: T -> Option<nat>): (r: Option<nat>)
    ensures r.Some? ==> r.value < |s| && f(s[r.value]).Some? && forall u :: 0 <= u < r.value ==> f(s[u]).None?
    ensures r.None? ==> forall u :: 0 <= u < |s| ==> f(s[u]).None?
  {
    if s == [] then None
    else if f(s[0]).Some? then Some(0)
    else match FirstHit(s[1..], f)
      case None => None
      case Some(k) => Some(k + 1)
  }

  /** The tiered search answers with the asset found by the first tier that finds one. */
  lemma {:induction false} FirstTierUrlHit(assets: seq<Asset>, tiers: seq<Tier>, find: Tier -> Option<nat>)
    requires forall t :: find(t) == FindAsset(assets, t)
    ensures var h := FirstHit(tiers, find);
      FirstTierUrl(assets, tiers) == if h.None? then None else Some(assets[FindAsset(assets, tiers[h.value]).value].downloadUrl)
  {
    if tiers != [] && find(tiers[0]).None? {
      FirstTierUrlHit(assets, tiers[1..], find);
      var h := FirstHit(tiers[1..], find);
      if h.Some? {
        assert tiers[1..][h.value] == tiers[h.value + 1];
      }
    }
  }

  /** Lower-casing keeps a lower-case suffix. */
  lemma LowerKeepsSuffix(s: string, p: string)
    requires EndsWith(s, p) && ToLower(p) == p
    ensures EndsWith(ToLower(s), p)
  {
    var l := ToLower(s);
    forall k | 0 <= k < |p|
      ensures l[|s| - |p|..][k] == p[k]
    {
      assert s[|s| - |p| + k] == p[k];
      assert ToLower(p)[k] == Lower(p[k]);
    }
  }

  lemma WindowsTiersAreMsi(p: Platform, a: Asset, t: nat)
    requires t < 4 && Matches(WindowsTiers(p)[t], a)
    ensures Matches(Ext(".msi"), a)
  {
    var tiers := WindowsTiers(p);
    if t == 0 {
      assert tiers[0] == ExactIgnoreCase(WIX_MSI_NAME);
      WindowsNamesAreMsi(ToLower(a.name));
    } else if t == 1 {
      assert tiers[1] == ExactIgnoreCase(LEGACY_MSI_NAME);
      WindowsNamesAreMsi(ToLower(a.name));
    } else if t == 2 {
      assert tiers[2] == ArchExt(".msi", p.arch);
    } else {
      assert tiers[3] == Ext(".msi");
    }
  }

  /** On Windows an installer is found iff some asset is an MSI. */
  lemma WindowsInstallerIffMsi(p: Platform, assets: seq<Asset>)
    requires p.os == "windows"
    ensures FindInstallerAssetUrl(p, assets).Some? <==>
      exists i :: 0 <= i < |assets| && EndsWith(ToLower(assets[i].name), ".msi")
  {
    var tiers := WindowsTiers(p);
    FirstTierUrlSpec(assets, tiers);
    if FindInstallerAssetUrl(p, assets).Some? {
      var t, i :| 0 <= t < |tiers| && 0 <= i < |assets| && Matches(tiers[t], assets[i]);
      WindowsTiersAreMsi(p, assets[i], t);
    } else {
      forall i | 0 <= i < |assets|
        ensures !EndsWith(ToLower(assets[i].name), ".msi")
      {
        assert !Matches(tiers[3], assets[i]);
      }
    }
  }

  lemma MacTiersAreDmgOrPkg(p: Platform, a: Asset, t: nat)
    requires t < |MacTiers(p)| && Matches(MacTiers(p)[t], a)
    ensures Matches(Ext(".dmg"), a) || Matches(Ext(".pkg"), a)
  {
    var tiers := MacTiers(p);
    if t == 1 && Artifact(p).Some? {
      var name := "gwt-" + Artifact(p).value + ".pkg";
      assert tiers[1] == Exact(name);
      assert EndsWith(name, ".pkg") by {
        assert name[|name| - 4..] == ".pkg";
      }
      assert ToLower(".pkg") == ".pkg";
      LowerKeepsSuffix(a.name, ".pkg");
    }
  }

  /** On macOS an installer is found iff some asset is a DMG or a PKG. */
  lemma MacInstallerIffDmgOrPkg(p: Platform, assets: seq<Asset>)
    requires p.os == "macos"
    ensures FindInstallerAssetUrl(p, assets).Some? <==>
      exists i :: 0 <= i < |assets| && (EndsWith(ToLower(assets[i].name), ".dmg") || EndsWith(ToLower(assets[i].name), ".pkg"))
  {
    var tiers := MacTiers(p);
    var n := |tiers|;
    FirstTierUrlSpec(assets, tiers);
    if FindInstallerAssetUrl(p, assets).Some? {
      var t, i :| 0 <= t < |tiers| && 0 <= i < |assets| && Matches(tiers[t], assets[i]);
      MacTiersAreDmgOrPkg(p, assets[i], t);
    } else {
      assert tiers[n - 2] == Ext(".dmg") && tiers[n - 1] == Ext(".pkg");
      forall i | 0 <= i < |assets|
        ensures !EndsWith(ToLower(assets[i].name), ".dmg") && !EndsWith(ToLower(assets[i].name), ".pkg")
      {
        assert !Matches(tiers[n - 2], assets[i]) && !Matches(tiers[n - 1], assets[i]);
      }
    }
  }

  /** Whichever asset is chosen is one of the release's assets. */
  lemma {:induction false} FirstTierUrlIsAsset(assets: seq<Asset>, tiers: seq<Tier>)
    ensures FirstTierUrl(assets, tiers).Some? ==>
      exists i :: 0 <= i < |assets| && assets[i].downloadUrl == FirstTierUrl(assets, tiers).value
  {
    if tiers != [] && FindAsset(assets, tiers[0]).None? {
      FirstTierUrlIsAsset(assets, tiers[1..]);
    }
  }

  /** The WiX MSI beats every other Windows asset, wherever it is listed. */
  lemma WixPreferred(p: Platform, assets: seq<Asset>, i: nat)
    requires p.os == "windows" && i < |assets| && ToLower(assets[i].name) == WIX_MSI_NAME
    requires forall j :: 0 <= j < i ==> ToLower(assets[j].name) != WIX_MSI_NAME
    ensures FindInstallerAssetUrl(p, assets) == Some(assets[i].downloadUrl)
  {
    var tier := WindowsTiers(p)[0];
    assert Matches(tier, assets[i]);
    var k := FindAsset(assets, tier).value;
    assert k == i;
  }

  /** On macOS an arch-matching DMG beats every other asset, wherever it is listed. */
  lemma ArchDmgPreferred(p: Platform, assets: seq<Asset>, i: nat)
    requires p.os == "macos" && i < |assets| && Matches(ArchExt(".dmg", p.arch), assets[i])
    requires forall j :: 0 <= j < i ==> !Matches(ArchExt(".dmg", p.arch), assets[j])
    ensures FindInstallerAssetUrl(p, assets) == Some(assets[i].downloadUrl)
  {
    var tiers := MacTiers(p);
    assert tiers[0] == ArchExt(".dmg", p.arch);
    var k := FindAsset(assets, tiers[0]).value;
    assert k == i;
  }

  // ---------------------------------------------------------------------
  // Installer kind and apply plan

  datatype InstallerKind = MacDmg | MacPkg | WindowsMsi

  /** The URL suffix each installer kind is recognised by. */
  function KindExtension(k: InstallerKind): string
  {
    match k
    case MacDmg => ".dmg"
    case MacPkg => ".pkg"
    case WindowsMsi => ".msi"
  }

  /** The system each installer kind runs on. */
  function KindOs(k: InstallerKind): string
  {
    if k == WindowsMsi then "windows" else "macos"
  }

  /** `installer_kind_for_url`. */
  function InstallerKindForUrl(p: Platform, url: string): (r: Option<InstallerKind>)
    ensures r.Some? ==> p.os == KindOs(r.value) && EndsWith(ToLower(url), KindExtension(r.value))
  {
    var lower := ToLower(url);
    if p.os == "macos" && EndsWith(lower, ".dmg") then Some(MacDmg)
    else if p.os == "macos" && EndsWith(lower, ".pkg") then Some(MacPkg)
    else if p.os == "windows" && EndsWith(lower, ".msi") then Some(WindowsMsi)
    else None
  }

  /** Each kind is recognised on its own system from its own suffix. */
  lemma KindFromExtension(k: InstallerKind, arch: string, base: string)
    ensures InstallerKindForUrl(Platform(KindOs(k), arch), base + KindExtension(k)) == Some(k)
  {
    var e := KindExtension(k);
    var lower := ToLower(base + e);
    assert EndsWith(lower, e) by {
      assert ToLower(e) == e;
      LowerAppendEndsWith(base, e);
    }
    assert k == MacPkg ==> !EndsWith(lower, ".dmg") by {
      PkgNotDmg(lower);
    }
  }

  /** A lower-case suffix survives lower-casing what it is appended to. */
  lemma LowerAppendEndsWith(base: string, e: string)
    requires ToLower(e) == e
    ensures EndsWith(ToLower(base + e), e)
  {
    AppendAffixes(base, e);
    LowerKeepsSuffix(base + e, e);
  }

  lemma PkgNotDmg(s: string)
    ensures EndsWith(s, ".pkg") ==> !EndsWith(s, ".dmg")
  {
    if EndsWith(s, ".pkg") {
      assert s[|s| - 3] == 'p';
    }
  }

  /** The kind is None off macOS and Windows, and on them for a URL with
      none of the system's suffixes. */
  lemma KindNoneCases(p: Platform, url: string)
    ensures InstallerKindForUrl(p, url).None? <==>
      (p.os != "macos" && p.os != "windows")
      || (p.os == "macos" && !EndsWith(ToLower(url), ".dmg") && !EndsWith(ToLower(url), ".pkg"))
      || (p.os == "windows" && !EndsWith(ToLower(url), ".msi"))
  {
  }

  datatype ApplyPlan = Portable(url: string) | Installer(url: string, kind: InstallerKind)

  /** `choose_apply_plan`. `writable` is the probe of the executable's
      directory: None when there is no executable path, no parent directory,
      or the probe failed, which counts as writable. */
  function ChooseApplyPlan(p: Platform, writable: Option<bool>, portableUrl: Option<string>,
                           installerUrl: Option<string>): (r: Option<ApplyPlan>)
    ensures r.Some? && r.value.Portable? ==> portableUrl == Some(r.value.url) && writable.GetOr(true)
    ensures r.Some? && r.value.Installer? ==>
      installerUrl == Some(r.value.url) && InstallerKindForUrl(p, r.value.url) == Some(r.value.kind)
  {
    if p.os == "macos" && installerUrl.Some? then
      match InstallerKindForUrl(p, installerUrl.value)
      case None => None
      case Some(kind) => Some(Installer(installerUrl.value, kind))
    else if !writable.GetOr(true) then
      if installerUrl.Some? then
        match InstallerKindForUrl(p, installerUrl.value)
        case None => None
        case Some(kind) => Some(Installer(installerUrl.value, kind))
      else None
    else if portableUrl.Some? then Some(Portable(portableUrl.value))
    else if installerUrl.Some? then
      match InstallerKindForUrl(p, installerUrl.value)
      case None => None
      case Some(kind) => Some(Installer(installerUrl.value, kind))
    else None
  }

  /** On macOS an installer URL always decides the plan: the installer when
      its kind is known, and no plan at all (not the portable build) when it
      is not. */
  lemma MacInstallerDecides(p: Platform, writable: Option<bool>, portableUrl: Option<string>, url: string)
    requires p.os == "macos"
    ensures var r := ChooseApplyPlan(p, writable, portableUrl, Some(url));
      (r.Some? <==> InstallerKindForUrl(p, url).Some?) && (r.Some? ==> r.value.Installer?)
  {
  }

  /** Without a writable directory and without an installer there is no plan. */
  lemma NotWritableNeedsInstaller(p: Platform, portableUrl: Option<string>)
    ensures ChooseApplyPlan(p, Some(false), portableUrl, None) == None
  {
  }

  /** A portable build is never chosen when the directory is not writable. */
  lemma NotWritableNeverPortable(p: Platform, portableUrl: Option<string>, installerUrl: Option<string>)
    ensures var r := ChooseApplyPlan(p, Some(false), portableUrl, installerUrl);
      r.Some? ==> r.value.Installer?
  {
  }

  /** Off macOS, with a writable (or unknown) directory, the portable build
      comes first. */
  lemma WritablePrefersPortable(p: Platform, writable: Option<bool>, url: string, installerUrl: Option<string>)
    requires p.os != "macos" && writable.GetOr(true)
    ensures ChooseApplyPlan(p, writable, Some(url), installerUrl) == Some(Portable(url))
  {
  }

  /** The macOS preference in the release flow: a DMG installer is chosen
      over the portable tarball. */
  lemma MacPrefersDmg(arch: string, writable: Option<bool>, portableUrl: Option<string>, base: string)
    ensures ChooseApplyPlan(Platform("macos", arch), writable, portableUrl, Some(base + ".dmg"))
      == Some(Installer(base + ".dmg", MacDmg))
  {
    KindFromExtension(MacDmg, arch, base);
  }
}
