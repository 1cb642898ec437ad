/**
 * The npm scanner's record logic: rendering the `author` and `repository`
 * fields of a `package.json`, the fallbacks used for each globally installed
 * dependency, and the outcome of `npm list -g --json`.
 *
 * Running npm and reading files are not modelled: the command's outcome, the
 * global prefix and the decoded `package.json` of each dependency are inputs.
 * The dependency map is taken in the order the decoder yields it.
 */
module Npm {
  import opened Wrappers
  import opened Str
  import opened Model

  /** `author`: a bare string or an object with optional name and email. */
  datatype AuthorField = AuthorString(text: string) | AuthorObject(name: Option<string>, email: Option<string>)

  /** `AuthorField`'s `Display`: "name <email>", just the name, just the email, or nothing. */
  function AuthorDisplay(a: AuthorField): string
  {
    match a
    case AuthorString(text) => text
    case AuthorObject(name, email) =>
      match (name, email)
      case (Some(n), Some(e)) => n + " <" + e + ">"
      case (Some(n), None) => n
      case (None, Some(e)) => e
      case (None, None) => ""
  }

  /** The rendering keeps every part that is present, each exactly once, in the order name then email. */
  lemma AuthorDisplaySpec(a: AuthorField)
    ensures a.AuthorString? ==> AuthorDisplay(a) == a.text
    ensures a.AuthorObject? && a.name.Some? ==> StartsWith(AuthorDisplay(a), a.name.value)
    ensures a.AuthorObject? && a.name.Some? && a.email.None? ==> AuthorDisplay(a) == a.name.value
    ensures a.AuthorObject? && a.email.Some? && a.name.None? ==> AuthorDisplay(a) == a.email.value
    ensures a.AuthorObject? && a.email.Some? && a.name.Some? ==>
      EndsWith(AuthorDisplay(a), "<" + a.email.value + ">")
      && |AuthorDisplay(a)| == |a.name.value| + |a.email.value| + 3
      && AuthorDisplay(a)[|a.name.value|] == ' '
    ensures a == AuthorObject(Option.None, Option.None) ==> AuthorDisplay(a) == ""
  {
    var r := AuthorDisplay(a);
    if a.AuthorObject? && a.name.Some? {
      StartsWithIff(r, a.name.value);
      assert r[..|a.name.value|] == a.name.value;
      if a.email.Some? {
        var tail := "<" + a.email.value + ">";
        EndsWithIff(r, tail);
        assert r == a.name.value + " " + tail;
        assert r[|r| - |tail|..] == tail;
      }
    }
  }

  /** `repository`: a bare URL or an object whose `url` may be missing. */
  datatype RepositoryField = RepositoryString(text: string) | RepositoryObject(url: Option<string>)

  /** `RepositoryField::url`. */
  function RepositoryUrl(r: RepositoryField): (u: Option<string>)
    ensures r.RepositoryString? ==> u == Some(r.text)
    ensures r.RepositoryObject? ==> u == r.url
  {
    match r
    case RepositoryString(text) => Some(text)
    case RepositoryObject(url) => url
  }

  /** The fields of an installed package's `package.json` that the scanner reads. */
  datatype PackageJson = PackageJson(
    description: Option<string>,
    author: Option<AuthorField>,
    license: Option<string>,
    repository: Option<RepositoryField>,
    homepage: Option<string>)

  /** One entry of `npm list`'s `dependencies`. */
  datatype NpmPackage = NpmPackage(version: Option<string>, resolved: Option<string>)

  /** What the package's registry page is. */
  function RegistryPage(name: string): string
  {
    "https://www.npmjs.com/package/" + name
  }

  /** The publisher: the rendered author, unless it renders empty. */
  function Publisher(author: Option<AuthorField>): (r: Option<string>)
    ensures r.Some? <==> author.Some? && AuthorDisplay(author.value) != ""
    ensures r.Some? ==> r.value == AuthorDisplay(author.value)
  {
    match author
    case None => Option.None
    case Some(a) => if AuthorDisplay(a) == "" then Option.None else Some(AuthorDisplay(a))
  }

  /** The metadata of one dependency, from its `package.json` when one could be read. */
  function DependencyMetadata(name: string, dep: NpmPackage, json: Option<PackageJson>): (m: PackageMetadata)
    ensures m.homepage.Some?
    ensures json.None? || json.value.homepage.None? ==> m.homepage == Some(RegistryPage(name))
    ensures json.Some? && json.value.homepage.Some? ==> m.homepage == json.value.homepage
    ensures m.publisher.Some? ==> m.publisher.value != ""
    ensures json.None? ==> m.description.None? && m.publisher.None? && m.license.None? && m.repository == dep.resolved
    ensures json.Some? ==>
      m.description == json.value.description && m.license == json.value.license
      && m.publisher == Publisher(json.value.author)
      && m.repository == (if json.value.repository.Some? && RepositoryUrl(json.value.repository.value).Some?
                          then RepositoryUrl(json.value.repository.value) else dep.resolved)
  {
    match json
    case Some(pj) =>
      var repo := match pj.repository case None => Option.None case Some(r) => RepositoryUrl(r);
      PackageMetadata(
        pj.description,
        Publisher(pj.author),
        if pj.homepage.Some? then pj.homepage else Some(RegistryPage(name)),
        if repo.Some? then repo else dep.resolved,
        pj.license)
    case None =>
      PackageMetadata(Option.None, Option.None, Some(RegistryPage(name)), dep.resolved, Option.None)
  }

  /** Where a globally installed package lives under the prefix. */
  function InstallPath(prefix: string, name: string): string
  {
    PathJoin(PathJoin(prefix, "lib/node_modules"), name)
  }

  /** The package one dependency becomes; its `package.json` is looked up only when the prefix is known. */
  function DependencyPackage(name: string, dep: NpmPackage, prefix: Option<string>,
                             readJson: (string, string) -> Option<PackageJson>): (p: Package)
    ensures p.id == name && p.name == name && p.source == Npm
    ensures p.version == dep.version.UnwrapOr("unknown")
    ensures prefix.Some? <==> p.installPath.Some?
    ensures prefix.Some? ==> p.installPath.value == InstallPath(prefix.value, name)
    ensures p.metadata == DependencyMetadata(name, dep, if prefix.Some? then readJson(prefix.value, name) else Option.None)
    ensures p.extensionRisk.None?
  {
    var json := if prefix.Some? then readJson(prefix.value, name) else Option.None;
    var p := NewPackage(name, name, dep.version.UnwrapOr("unknown"), Npm).WithMetadata(DependencyMetadata(name, dep, json));
    if prefix.Some? then p.(installPath := Some(InstallPath(prefix.value, name))) else p
  }

  /** The dependencies in order, npm itself left out. */
  function DependencyPackages(deps: seq<(string, NpmPackage)>, prefix: Option<string>,
                              readJson: (string, string) -> Option<PackageJson>): seq<Package>
    decreases |deps|
  {
    if deps == [] then []
    else
      var (name, dep) := deps[|deps| - 1];
      DependencyPackages(deps[..|deps| - 1], prefix, readJson)
        + (if name == "npm" then [] else [DependencyPackage(name, dep, prefix, readJson)])
  }

  /** How `npm list -g --json` went. */
  datatype ListRun =
    | NotStarted
    | Ran(success: bool, stdoutEmpty: bool, decoded: Option<Option<seq<(string, NpmPackage)>>>)

  /** `NpmScanner::scan` once the command has run. */
  function ScanResultOf(run: ListRun, prefix: Option<string>, readJson: (string, string) -> Option<PackageJson>): (r: Result<seq<Package>, string>)
    ensures run.NotStarted? ==> r == Err("Failed to execute npm. Is npm installed?")
    ensures run.Ran? && !run.success && run.stdoutEmpty ==> r == Ok([])
    ensures run.Ran? && (run.success || !run.stdoutEmpty) && run.decoded.None? ==> r == Err("Failed to parse npm list output")
    ensures run.Ran? && (run.success || !run.stdoutEmpty) && run.decoded.Some? ==>
      r == Ok(DependencyPackages(run.decoded.value.UnwrapOr([]), prefix, readJson))
  {
    match run
    case NotStarted => Err("Failed to execute npm. Is npm installed?")
    case Ran(success, stdoutEmpty, decoded) =>
      if !success && stdoutEmpty then Ok([])
      else
        match decoded
        case None => Err("Failed to parse npm list output")
        case Some(deps) => Ok(DependencyPackages(deps.UnwrapOr([]), prefix, readJson))
  }

  /** The dependency loop of `NpmScanner::scan`. */
  method ScanDependencies(deps: seq<(string, NpmPackage)>, prefix: Option<string>,
                          readJson: (string, string) -> Option<PackageJson>) returns (packages: seq<Package>)
    ensures packages == DependencyPackages(deps, prefix, readJson)
  {
    packages := [];
    for i := 0 to |deps|
      invariant packages == DependencyPackages(deps[..i], prefix, readJson)
    {
      assert deps[..i + 1][..i] == deps[..i];
      var (name, dep) := deps[i];
      if name == "npm" {
        continue;
      }
      var json := Option.None;
      if prefix.Some? {
        json := readJson(prefix.value, name);
      }
      var package := NewPackage(name, name, dep.version.UnwrapOr("unknown"), Npm).WithMetadata(DependencyMetadata(name, dep, json));
      if prefix.Some? {
        package := package.(installPath := Some(InstallPath(prefix.value, name)));
      }
      packages := packages + [package];
    }
    assert deps[..|deps|] == deps;
  }

  /** One dependency more: the packages so far, then its package unless it is npm itself. */
  lemma DependencyPackagesLast(deps: seq<(string, NpmPackage)>, prefix: Option<string>,
                               readJson: (string, string) -> Option<PackageJson>)
    requires deps != []
    ensures var before := DependencyPackages(deps[..|deps| - 1], prefix, readJson);
      var r := DependencyPackages(deps, prefix, readJson);
      var name := deps[|deps| - 1].0;
      && |r| == |before| + (if name == "npm" then 0 else 1)
      && r[..|before|] == before
      && (name != "npm" ==> r[|before|].id == name)
  {
  }

  /** Every package comes from a dependency other than npm ... */
  lemma {:induction false} DependencyPackagesFrom(deps: seq<(string, NpmPackage)>, prefix: Option<string>,
                                                  readJson: (string, string) -> Option<PackageJson>)
    ensures var r := DependencyPackages(deps, prefix, readJson);
      forall k :: 0 <= k < |r| ==> r[k].id != "npm" && exists i :: 0 <= i < |deps| && deps[i].0 == r[k].id
    decreases |deps|
  {
    if deps != [] {
      var init := deps[..|deps| - 1];
      DependencyPackagesFrom(init, prefix, readJson);
      DependencyPackagesLast(deps, prefix, readJson);
      var before := DependencyPackages(init, prefix, readJson);
      var r := DependencyPackages(deps, prefix, readJson);
      forall k | 0 <= k < |r|
        ensures r[k].id != "npm" && exists i :: 0 <= i < |deps| && deps[i].0 == r[k].id
      {
        if k < |before| {
          assert r[k] == before[k];
          var i :| 0 <= i < |init| && init[i].0 == before[k].id;
          assert deps[i] == init[i];
        } else {
          assert deps[|deps| - 1].0 == r[k].id;
        }
      }
    }
  }

  /** ... and every dependency other than npm gives a package. */
  lemma {:induction false} DependencyPackagesCover(deps: seq<(string, NpmPackage)>, prefix: Option<string>,
                                                   readJson: (string, string) -> Option<PackageJson>)
    ensures var r := DependencyPackages(deps, prefix, readJson);
      forall i :: 0 <= i < |deps| && deps[i].0 != "npm" ==> exists k :: 0 <= k < |r| && r[k].id == deps[i].0
    decreases |deps|
  {
    if deps != [] {
      var init := deps[..|deps| - 1];
      DependencyPackagesCover(init, prefix, readJson);
      DependencyPackagesLast(deps, prefix, readJson);
      var before := DependencyPackages(init, prefix, readJson);
      var r := DependencyPackages(deps, prefix, readJson);
      forall i | 0 <= i < |deps| && deps[i].0 != "npm"
        ensures exists k :: 0 <= k < |r| && r[k].id == deps[i].0
      {
        if i < |init| {
          assert init[i] == deps[i];
          var k :| 0 <= k < |before| && before[k].id == init[i].0;
          assert r[k] == before[k];
        } else {
          assert r[|before|].id == deps[i].0;
        }
      }
    }
  }

  /** The install path ends with the package name under `lib/node_modules` of the prefix. */
  lemma InstallPathSpec(prefix: string, name: string)
    requires name == [] || name[0] != '/'
    ensures StartsWith(InstallPath(prefix, name), PathJoin(prefix, "lib/node_modules"))
    ensures EndsWith(InstallPath(prefix, name), name)
  {
    PathJoinRelative(PathJoin(prefix, "lib/node_modules"), name);
  }
}
