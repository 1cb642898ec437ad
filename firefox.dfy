/**
 * The Firefox scanner's record logic: how one entry of a profile's
 * `extensions.json` becomes a package with its risk report, how `.xpi` files
 * add the add-ons that file does not list, and how profiles are merged so
 * that the first package seen for an identifier wins.
 *
 * Reading directories and parsing JSON are not modelled: a profile is given
 * as its decoded add-on entries and the names and paths of its extension files.
 */
module Firefox {
  import opened Wrappers
  import opened Str
  import opened Model
  import ExtensionRisk

  // ----- One add-on entry -----

  /** `author` / `creator`: a bare name or an object with a name. */
  datatype AuthorField = AuthorString(text: string) | AuthorObject(name: string)

  /** The author's name, whichever form it has. */
  function AuthorName(a: AuthorField): string
  {
    match a
    case AuthorString(text) => text
    case AuthorObject(name) => name
  }

  /** Permissions and origins the user granted at run time. */
  datatype UserPermissions = UserPermissions(permissions: seq<string>, origins: seq<string>)

  /** One decoded entry of `extensions.json`; absent lists decode as empty. */
  datatype FirefoxAddon = FirefoxAddon(
    id: Option<string>,
    name: Option<string>,
    version: Option<string>,
    description: Option<string>,
    author: Option<AuthorField>,
    homepageUrl: Option<string>,
    permissions: seq<string>,
    optionalPermissions: seq<string>,
    userPermissions: Option<UserPermissions>)

  /** Built-in and system add-ons, which the scanner skips. */
  predicate IsBuiltin(id: string)
  {
    EndsWith(id, "@mozilla.org") || EndsWith(id, "@shield.mozilla.org")
  }

  /** An API permission, as opposed to a host pattern: no `://` and no leading `<`. */
  predicate IsApiPermission(p: string)
  {
    !Contains(p, "://") && !StartsWith(p, "<")
  }

  /** The first half of `partition`: the API permissions, in order. */
  function ApiPermissions(ps: seq<string>): seq<string>
    decreases |ps|
  {
    if ps == [] then []
    else ApiPermissions(ps[..|ps| - 1]) + (if IsApiPermission(ps[|ps| - 1]) then [ps[|ps| - 1]] else [])
  }

  /** The second half of `partition`: everything else, in order. */
  function HostLikePermissions(ps: seq<string>): seq<string>
    decreases |ps|
  {
    if ps == [] then []
    else HostLikePermissions(ps[..|ps| - 1]) + (if IsApiPermission(ps[|ps| - 1]) then [] else [ps[|ps| - 1]])
  }

  /** Declared permissions followed by the user-granted ones. */
  function AllPermissions(addon: FirefoxAddon): seq<string>
  {
    addon.permissions + (if addon.userPermissions.Some? then addon.userPermissions.value.permissions else [])
  }

  /** The user-granted origins, if any. */
  function Origins(addon: FirefoxAddon): seq<string>
  {
    if addon.userPermissions.Some? then addon.userPermissions.value.origins else []
  }

  /** The host list handed to the risk engine: the granted origins, then the host-like permissions. */
  function HostList(addon: FirefoxAddon): seq<string>
  {
    Origins(addon) + HostLikePermissions(AllPermissions(addon))
  }

  /** `parse_firefox_addon`. */
  function ParseFirefoxAddon(addon: FirefoxAddon): (r: Option<Package>)
    ensures r.None? <==> addon.id.None? || IsBuiltin(addon.id.value)
    ensures r.Some? ==>
      var p := r.value;
      && p.id == addon.id.value
      && p.name == addon.name.UnwrapOr(addon.id.value)
      && p.version == addon.version.UnwrapOr("unknown")
      && p.source == Firefox
      && p.installPath.None?
      && p.metadata.description == addon.description
      && p.metadata.homepage == addon.homepageUrl
      && (p.metadata.publisher.Some? <==> addon.author.Some?)
      && (addon.author.Some? ==> p.metadata.publisher.value == AuthorName(addon.author.value))
      && p.metadata.repository.None? && p.metadata.license.None?
      && p.extensionRisk == Some(ExtensionRisk.ExtensionReport(
           ApiPermissions(AllPermissions(addon)), addon.optionalPermissions, HostList(addon), Option.None))
  {
    match addon.id
    case None => Option.None
    case Some(id) =>
      if IsBuiltin(id) then Option.None
      else
        var publisher := match addon.author case None => Option.None case Some(a) => Some(AuthorName(a));
        var metadata := PackageMetadata(addon.description, publisher, addon.homepageUrl, Option.None, Option.None);
        var report := ExtensionRisk.ExtensionReport(
          ApiPermissions(AllPermissions(addon)), addon.optionalPermissions, HostList(addon), Option.None);
        Some(NewPackage(id, addon.name.UnwrapOr(id), addon.version.UnwrapOr("unknown"), Firefox)
          .WithMetadata(metadata).WithExtensionRisk(report))
  }

  /** Both halves of the partition in one list each, appended piece by piece. */
  lemma {:induction false} PartitionAppend(a: seq<string>, b: seq<string>)
    ensures ApiPermissions(a + b) == ApiPermissions(a) + ApiPermissions(b)
    ensures HostLikePermissions(a + b) == HostLikePermissions(a) + HostLikePermissions(b)
    decreases |b|
  {
    if b == [] {
      assert a + b == a;
    } else {
      var b' := b[..|b| - 1];
      assert (a + b)[..|a + b| - 1] == a + b';
      assert (a + b)[|a + b| - 1] == b[|b| - 1];
      PartitionAppend(a, b');
    }
  }

  /**
   * Every permission lands in exactly one half: the API half holds only API
   * permissions and the other half only the rest ...
   */
  lemma {:induction false} PartitionSides(ps: seq<string>)
    ensures forall i :: 0 <= i < |ApiPermissions(ps)| ==> IsApiPermission(ApiPermissions(ps)[i])
    ensures forall i :: 0 <= i < |HostLikePermissions(ps)| ==> !IsApiPermission(HostLikePermissions(ps)[i])
    decreases |ps|
  {
    if ps != [] {
      var init := ps[..|ps| - 1];
      var p := ps[|ps| - 1];
      PartitionSides(init);
      assert ApiPermissions(ps) == ApiPermissions(init) + (if IsApiPermission(p) then [p] else []);
      assert HostLikePermissions(ps) == HostLikePermissions(init) + (if IsApiPermission(p) then [] else [p]);
    }
  }

  /** ... and together the two halves hold every occurrence of every permission. */
  lemma {:induction false} PartitionCounts(ps: seq<string>)
    ensures multiset(ApiPermissions(ps)) + multiset(HostLikePermissions(ps)) == multiset(ps)
    decreases |ps|
  {
    if ps != [] {
      var init := ps[..|ps| - 1];
      var p := ps[|ps| - 1];
      PartitionCounts(init);
      assert ps == init + [p];
      var api := ApiPermissions(init);
      var host := HostLikePermissions(init);
      if IsApiPermission(p) {
        assert ApiPermissions(ps) == api + [p] && HostLikePermissions(ps) == host;
        assert multiset(api + [p]) == multiset(api) + multiset{p};
      } else {
        assert ApiPermissions(ps) == api && HostLikePermissions(ps) == host + [p];
        assert multiset(host + [p]) == multiset(host) + multiset{p};
      }
      assert multiset(init + [p]) == multiset(init) + multiset{p};
    }
  }

  /** The report of a listed add-on: no policy, so the CSP part is the fixed 30-point "no policy" finding. */
  lemma FirefoxRiskWithoutCsp(addon: FirefoxAddon)
    requires ParseFirefoxAddon(addon).Some?
    ensures var report := ParseFirefoxAddon(addon).value.extensionRisk.value;
      && !report.csp.hasCsp
      && report.csp.score == 30
      && report.hostPermissions == Origins(addon) + HostLikePermissions(AllPermissions(addon))
      && report.totalScore == ExtensionRisk.RequiredScore(ApiPermissions(AllPermissions(addon)))
           + ExtensionRisk.OptionalScore(addon.optionalPermissions)
           + ExtensionRisk.HostScope(HostList(addon)).Score() + 30
  {
  }

  // ----- One profile -----

  /** An extension file found in the profile's `extensions` directory. */
  datatype ExtensionFile = ExtensionFile(fileName: string, path: string)

  /** Some package already has this identifier. */
  predicate HasId(packages: seq<Package>, id: string)
  {
    exists k :: 0 <= k < |packages| && packages[k].id == id
  }

  /** The identifier an `.xpi` file names: every trailing ".xpi" removed. */
  function XpiId(fileName: string): string
  {
    TrimEndMatches(fileName, ".xpi")
  }

  /** The packages the listed entries give, in entry order. */
  function ParsedAddons(addons: seq<FirefoxAddon>): seq<Package>
    decreases |addons|
  {
    if addons == [] then []
    else
      var last := ParseFirefoxAddon(addons[|addons| - 1]);
      ParsedAddons(addons[..|addons| - 1]) + (if last.Some? then [last.value] else [])
  }

  /** One extension file: an `.xpi` whose identifier is new adds a package of unknown version at its path. */
  function XpiStep(packages: seq<Package>, file: ExtensionFile): seq<Package>
  {
    if EndsWith(file.fileName, ".xpi") && !HasId(packages, XpiId(file.fileName)) then
      var id := XpiId(file.fileName);
      packages + [NewPackage(id, id, "unknown", Firefox).WithPath(file.path)]
    else packages
  }

  /** The extension files in directory order. */
  function XpiSteps(packages: seq<Package>, files: seq<ExtensionFile>): seq<Package>
    decreases |files|
  {
    if files == [] then packages
    else XpiStep(XpiSteps(packages, files[..|files| - 1]), files[|files| - 1])
  }

  /** `scan_firefox_profile`: the listed add-ons, then the `.xpi` files. */
  function ProfilePackages(addons: seq<FirefoxAddon>, files: seq<ExtensionFile>): seq<Package>
  {
    XpiSteps(ParsedAddons(addons), files)
  }

  /** `scan_firefox_profile` as the scanner runs it: two loops pushing into one list. */
  method ScanProfile(addons: seq<FirefoxAddon>, files: seq<ExtensionFile>) returns (packages: seq<Package>)
    ensures packages == ProfilePackages(addons, files)
  {
    packages := [];
    for i := 0 to |addons|
      invariant packages == ParsedAddons(addons[..i])
    {
      assert addons[..i + 1][..i] == addons[..i];
      var parsed := ParseFirefoxAddon(addons[i]);
      if parsed.Some? {
        packages := packages + [parsed.value];
      }
    }
    assert addons[..|addons|] == addons;
    ghost var listed := packages;
    for j := 0 to |files|
      invariant packages == XpiSteps(listed, files[..j])
    {
      assert files[..j + 1][..j] == files[..j];
      var name := files[j].fileName;
      if EndsWith(name, ".xpi") {
        var id := XpiId(name);
        var present := FindId(packages, id);
        if !present {
          packages := packages + [NewPackage(id, id, "unknown", Firefox).WithPath(files[j].path)];
        }
      }
    }
    assert files[..|files|] == files;
  }

  /**
   * The listed add-ons come first and are kept; each further package comes from
   * an `.xpi` file, has unknown version and a path, and takes an identifier no
   * earlier package has.
   */
  lemma {:induction false} XpiStepsSpec(packages: seq<Package>, files: seq<ExtensionFile>)
    ensures var r := XpiSteps(packages, files);
      && |packages| <= |r| && r[..|packages|] == packages
      && forall k :: |packages| <= k < |r| ==>
           r[k].version == "unknown" && r[k].source == Firefox && r[k].installPath.Some?
           && !HasId(r[..k], r[k].id)
           && exists f :: 0 <= f < |files| && EndsWith(files[f].fileName, ".xpi") && r[k].id == XpiId(files[f].fileName)
    decreases |files|
  {
    if files != [] {
      var init := files[..|files| - 1];
      var file := files[|files| - 1];
      XpiStepsSpec(packages, init);
      var before := XpiSteps(packages, init);
      var r := XpiSteps(packages, files);
      assert r == XpiStep(before, file);
      XpiStepSpec(before, file);
      assert r[..|packages|] == before[..|packages|];
      forall k | |packages| <= k < |r|
        ensures r[k].version == "unknown" && r[k].source == Firefox && r[k].installPath.Some?
        ensures !HasId(r[..k], r[k].id)
        ensures exists f :: 0 <= f < |files| && EndsWith(files[f].fileName, ".xpi") && r[k].id == XpiId(files[f].fileName)
      {
        if k < |before| {
          assert r[k] == before[k] && r[..k] == before[..k];
          var f :| 0 <= f < |init| && EndsWith(init[f].fileName, ".xpi") && before[k].id == XpiId(init[f].fileName);
          assert files[f] == init[f];
        } else {
          assert r[..k] == before;
          assert files[|files| - 1] == file;
        }
      }
    }
  }

  /** One file adds at most one package, behind the others, with a fresh identifier taken from an `.xpi` name. */
  lemma XpiStepSpec(before: seq<Package>, file: ExtensionFile)
    ensures var r := XpiStep(before, file);
      && |before| <= |r| <= |before| + 1 && r[..|before|] == before
      && (|r| > |before| ==>
            r[|before|].version == "unknown" && r[|before|].source == Firefox && r[|before|].installPath.Some?
            && !HasId(before, r[|before|].id)
            && EndsWith(file.fileName, ".xpi") && r[|before|].id == XpiId(file.fileName))
  {
  }

  // ----- All profiles -----

  /** Adds a package unless one with its identifier is already there. */
  function PushNew(packages: seq<Package>, p: Package): seq<Package>
  {
    if HasId(packages, p.id) then packages else packages + [p]
  }

  /** The first package seen for each identifier, in first-seen order. */
  function FirstById(ps: seq<Package>): seq<Package>
    decreases |ps|
  {
    if ps == [] then [] else PushNew(FirstById(ps[..|ps| - 1]), ps[|ps| - 1])
  }

  /** The profiles' packages, profile after profile. */
  function Concat(profiles: seq<seq<Package>>): seq<Package>
    decreases |profiles|
  {
    if profiles == [] then [] else Concat(profiles[..|profiles| - 1]) + profiles[|profiles| - 1]
  }

  /** `packages.iter().any(|p| p.id == id)`. */
  method FindId(packages: seq<Package>, id: string) returns (present: bool)
    ensures present == HasId(packages, id)
  {
    present := false;
    for k := 0 to |packages|
      invariant present <==> exists m :: 0 <= m < k && packages[m].id == id
    {
      if packages[k].id == id {
        present := true;
      }
    }
  }

  /** One profile's packages merged into those kept so far. */
  method MergeProfile(packages: seq<Package>, profile: seq<Package>, ghost done: seq<Package>) returns (merged: seq<Package>)
    requires packages == FirstById(done)
    ensures merged == FirstById(done + profile)
  {
    merged := packages;
    assert done + profile[..0] == done;
    for j := 0 to |profile|
      invariant merged == FirstById(done + profile[..j])
    {
      assert (done + profile[..j + 1])[..|done + profile[..j]|] == done + profile[..j];
      var present := FindId(merged, profile[j].id);
      if !present {
        merged := merged + [profile[j]];
      }
    }
    assert profile[..|profile|] == profile;
  }

  /** The profile loop of `FirefoxScanner::scan`: each profile's packages pushed unless the identifier is already present. */
  method MergeProfiles(profiles: seq<seq<Package>>) returns (packages: seq<Package>)
    ensures packages == FirstById(Concat(profiles))
  {
    packages := [];
    for i := 0 to |profiles|
      invariant packages == FirstById(Concat(profiles[..i]))
    {
      assert profiles[..i + 1][..i] == profiles[..i];
      packages := MergeProfile(packages, profiles[i], Concat(profiles[..i]));
    }
    assert profiles[..|profiles|] == profiles;
  }

  /**
   * The merge keeps one package per identifier, drops no identifier, and what
   * it keeps for an identifier is the first package that had it.
   */
  lemma FirstByIdSpec(ps: seq<Package>)
    ensures var r := FirstById(ps);
      && (forall a, b :: 0 <= a < b < |r| ==> r[a].id != r[b].id)
      && (forall i :: 0 <= i < |ps| ==> HasId(r, ps[i].id))
      && (forall k :: 0 <= k < |r| ==> exists i :: 0 <= i < |ps| && ps[i] == r[k] && !HasId(ps[..i], r[k].id))
  {
    FirstByIdDistinct(ps);
    FirstByIdCovers(ps);
    FirstByIdFirst(ps);
  }

  /** One push keeps the kept packages in front and adds at most the new one. */
  lemma PushNewSpec(acc: seq<Package>, p: Package)
    ensures var r := PushNew(acc, p);
      && r[..|acc|] == acc && HasId(r, p.id)
      && (HasId(acc, p.id) ==> r == acc)
      && (!HasId(acc, p.id) ==> r == acc + [p])
  {
    if !HasId(acc, p.id) {
      assert (acc + [p])[|acc|] == p;
    }
  }

  lemma {:induction false} FirstByIdDistinct(ps: seq<Package>)
    ensures forall a, b :: 0 <= a < b < |FirstById(ps)| ==> FirstById(ps)[a].id != FirstById(ps)[b].id
    decreases |ps|
  {
    if ps != [] {
      var init := ps[..|ps| - 1];
      var p := ps[|ps| - 1];
      FirstByIdDistinct(init);
      var acc := FirstById(init);
      PushNewSpec(acc, p);
      var r := FirstById(ps);
      assert r == PushNew(acc, p);
      forall a, b | 0 <= a < b < |r|
        ensures r[a].id != r[b].id
      {
        assert r[a] == acc[a];
        if b == |acc| {
          assert r[b] == p;
        } else {
          assert r[b] == acc[b];
        }
      }
    }
  }

  lemma {:induction false} FirstByIdCovers(ps: seq<Package>)
    ensures forall i :: 0 <= i < |ps| ==> HasId(FirstById(ps), ps[i].id)
    decreases |ps|
  {
    if ps != [] {
      var init := ps[..|ps| - 1];
      var p := ps[|ps| - 1];
      FirstByIdCovers(init);
      var acc := FirstById(init);
      PushNewSpec(acc, p);
      var r := FirstById(ps);
      assert r == PushNew(acc, p);
      forall i | 0 <= i < |ps|
        ensures HasId(r, ps[i].id)
      {
        if i < |init| {
          assert init[i] == ps[i];
          var m :| 0 <= m < |acc| && acc[m].id == init[i].id;
          assert r[m] == acc[m];
        }
      }
    }
  }

  lemma {:induction false} FirstByIdFirst(ps: seq<Package>)
    ensures forall k :: 0 <= k < |FirstById(ps)| ==>
      exists i :: 0 <= i < |ps| && ps[i] == FirstById(ps)[k] && !HasId(ps[..i], FirstById(ps)[k].id)
    decreases |ps|
  {
    if ps != [] {
      var init := ps[..|ps| - 1];
      var p := ps[|ps| - 1];
      FirstByIdFirst(init);
      FirstByIdCovers(init);
      var acc := FirstById(init);
      PushNewSpec(acc, p);
      var r := FirstById(ps);
      assert r == PushNew(acc, p);
      forall k | 0 <= k < |FirstById(ps)|
        ensures exists i :: 0 <= i < |ps| && ps[i] == FirstById(ps)[k] && !HasId(ps[..i], FirstById(ps)[k].id)
      {
        if k < |acc| {
          assert r[k] == acc[k];
          var i :| 0 <= i < |init| && init[i] == acc[k] && !HasId(init[..i], acc[k].id);
          assert ps[..i] == init[..i] && ps[i] == init[i];
        } else {
          assert r[k] == p && !HasId(acc, p.id);
          assert ps[..|init|] == init;
          assert !HasId(init, p.id);
          assert 0 <= |init| < |ps| && ps[|init|] == FirstById(ps)[k] && !HasId(ps[..|init|], FirstById(ps)[k].id);
        }
      }
    } else {
      assert FirstById(ps) == [];
    }
  }
}
