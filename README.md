# extenscan, modelled in Dafny

extenscan scans a machine for installed browser extensions, editor
extensions and packages (VS Code, Chrome and the Chromium family, Firefox,
npm, Homebrew). It checks them against the OSV vulnerability database and
the package registries, scores the risk of each extension's permissions and
content security policy, and writes the result as a table, JSON, HTML,
SARIF 2.1.0 or a CycloneDX 1.5 bill of materials.

This project models the decision logic of the scanner and proves what it
promises. One Dafny module follows each core source file:

- `ExtensionRisk` (`extension_risk.dfy`): the permission catalogue, host-pattern scope, CSP analysis and report assembly of `src/checker/extension_risk.rs`.
- `Osv` (`osv.dfy`): CVSS severity parsing, fixed-version extraction, ecosystems and the batch-to-vulnerability mapping of `src/checker/osv.rs`.
- `SemVer`, `Version` (`semver.dfy`, `version.dfy`): Semantic Versioning 2.0.0 parsing and precedence, `is_newer` and the outdated check of `src/checker/version.rs`.
- `Cli` (`cli.dfy`): health score, update classification, truncation, severity sort and the risk table of `src/output/cli.rs`.
- `Html` (`html.dfy`): escaping, CSS class mappings and source counting of `src/output/html.rs`.
- `Config` (`config.dfy`): the `*` glob matcher, ignore rules and default configuration of `src/config.rs`.
- `App` (`app.dfy`): the exit-code policy, `--source` parsing, flag combination, scanner gathering and watch mode of `src/main.rs`.
- `Model` (`package.dfy`): sources, packages and their builders of `src/model/package.rs`.
- `Firefox` (`firefox.dfy`): addon parsing, permission partitioning and profile merging of `src/scanner/firefox.rs`.
- `Npm` (`npm.dfy`): author and repository rendering and dependency records of `src/scanner/npm.rs`.
- `Sarif` (`sarif.dfy`): the SARIF report of `src/output/sarif.rs`.
- `CycloneDx` (`cyclonedx.dfy`): the bill of materials and `uuid_v4` of `src/output/cyclonedx.rs`.
- `Output` (`output.dfy`): format parsing and output dispatch of `src/output/mod.rs`.
- `Cache` (`cache.dfy`): key sanitisation, time-to-live, `get`/`set`/`clear` of `src/cache.rs`.
- `Wrappers`, `Str` (`wrappers.dfy`, `strings.dfy`): `Option`/`Result`, and the Rust string operations the code uses (`starts_with`, `split`, `trim`, `to_lowercase`, `parse::<u32>`, ...).

Loops of the source are methods with loop invariants, each proved equal to
a specification function; the promised properties are lemmas about those
functions. The cache directory is a class whose `get`, `set` and `clear`
update a map of files. HTTP responses, subprocess output, file contents and
the clock are parameters.

Where the data-model file and the rest of the code disagree, the model
follows the code that uses it: `Source` has the eleven variants used by the
scanners and the CycloneDX mapping, and `Package` carries an optional
extension risk report.

Quirks of the code that the model keeps as written:
- A leading version prefix is removed with `trim_start_matches('v')`, which
  strips every leading lowercase `v` and never `V`.
- `analyze_extension(P, [], [], None)` adds 30 for the missing content
  security policy on top of the permission weights (`ExtensionRisk.ReportTotalWithoutHostsOrCsp`).
- Script-source domains of a CSP are appended without removing repeats;
  connect-source domains are appended only when new. The score, 10 per
  recorded domain, therefore depends on the order of the directives
  (`ExtensionRisk.CspDirectiveOrder`).
- In `classify_update`, two unreadable major numbers compare equal, so such
  a pair can be a "minor" update (`Cli.UnreadableMajorsQuirk`).
- The cache file of the empty key is `.json`, which has no `json`
  extension, so `clear` leaves it in place (`Cache.EmptyKeyNotJson`).
- A purl is written without percent-encoding, so different packages can
  share one (`CycloneDx.PurlAmbiguous`).

## Model

| member | source | states |
|---|---|---|
| `App.DetermineExitCode` | src/main.rs:415-480 | the exit code is always one of 0, 2, 3, 4, 5 |
| `App.ProcessExitCode` | src/main.rs:128-137 | a finished run exits with its own code, a failed one with the error code 1 |
| `App.FailureCodeDistinct` | src/main.rs:19-27 | the error code of a failed run differs from every code a finished scan can give |
| `App.ExitCodeByWorst` | src/main.rs:421-479 | with a threshold, the code is that of the most severe severity present when it reaches the threshold, else 0 |
| `App.WorstSpec` | src/main.rs:421-479 | the worst severity is present in the result (unless Unknown) and no vulnerability is more severe |
| `App.ExitCodeSpec` | src/main.rs:415-480 | no threshold gives 0; with one, 0 exactly when no vulnerability reaches it, otherwise the code of a present vulnerability that reaches it and is the most severe |
| `App.CriticalAlwaysFails` | src/main.rs:438-479 | a Critical vulnerability gives code 2 at every threshold |
| `App.UnknownIgnored` | src/main.rs:421-479 | adding an Unknown-severity vulnerability never changes the exit code |
| `App.ParseSource` | src/main.rs:544-557 | a parsed source is one of the six listed ones; an error carries the "Unknown source: ..." message quoting the input |
| `App.ParseSourceRoundTrip` | src/main.rs:482-557 | every identifier `list-sources` shows parses back to its source |
| `App.ParseSourceCaseInsensitive` | src/main.rs:544-557 | a text parses iff its lowercase form does, to the same source; `brew` names Homebrew |
| `App.CombineFlags` | src/main.rs:159-161 | vulnerability checks are skipped iff the flag or the configuration says so; outdated checks run iff the configuration enables them and no flag disables them; the format flag overrides the configured default |
| `App.DefaultSettings` | src/main.rs:159-161 | with no flags and the default configuration: table format, vulnerability and outdated checks both on |
| `App.GatheredMembers` | src/main.rs:312-358 | a package is gathered iff some scanner that succeeded listed it |
| `App.ScanSequential` | src/main.rs:361-412 | the sequential scan returns every succeeding scanner's packages in scanner order, equal to the gathered list |
| `App.GatherPackages` | src/main.rs:223-228 | the parallel and the sequential scan give the same package list |
| `App.ApplyChecks` | src/main.rs:230-295 | packages are kept as gathered; vulnerabilities (outdated records) are those the checker returned when the check is enabled, there are packages and the check succeeded, and empty otherwise |
| `App.PackageKeys` | src/main.rs:746-750 | the tracked package keys are exactly the `id@version` keys of the packages |
| `App.VulnKeys` | src/main.rs:752-756 | the tracked vulnerability keys are exactly the `package_id/id` keys of the vulnerabilities |
| `App.WatchStep` | src/main.rs:746-809 | the first round gives the counts summary; later rounds report the four set differences (new, removed, new vulnerabilities, resolved) and "no changes" only when both key sets are unchanged; the current keys are remembered |
| `App.NoChangesIff` | src/main.rs:769-779 | after the first round, "no changes" is reported exactly when both key sets equal the previous round's |
| `App.RescanUnchanged` | src/main.rs:746-809 | scanning the same result twice in a row reports no changes |
| `Cache.TtlSeconds` | src/cache.rs:59-85 | a time-to-live of `h` hours is exactly `h` whole hours of seconds |
| `Cache.SafeKey` | src/cache.rs:97-106 | sanitising keeps the length and leaves only alphanumeric characters, `-` and `_` |
| `Cache.SafeKeySpec` | src/cache.rs:97-106 | a character is kept iff it is safe; every other character becomes `_` |
| `Cache.SafeKeyFixed` | src/cache.rs:97-106 | a key is its own sanitisation iff it is already safe, and sanitising is idempotent |
| `Cache.SafeKeyCollision` | src/cache.rs:97-106 | keys that differ only where one has `_` and the other an unsafe character share a file |
| `Cache.CachePathInsideDir` | src/cache.rs:96-108 | the path is the cache directory followed by a `/`-free name ending in `{safe_key}.json` |
| `Cache.LastDot` | src/cache.rs:192 | the position found holds a `.` with none after it; none found means no `.` at all |
| `Cache.FileNameIsJson` | src/cache.rs:107 | the file of every non-empty key has the `json` extension |
| `Cache.EmptyKeyNotJson` | src/cache.rs:107 | the empty key's file is `.json`, which has no extension |
| `Cache.WithoutJson` | src/cache.rs:188-198 | the files kept are exactly those without the `json` extension, unchanged |
| `Cache.Cache.constructor` | src/cache.rs:59-64 | `Cache::new` has a time-to-live of 24 hours, 86400 seconds |
| `Cache.Cache.WithTtlHours` | src/cache.rs:80-85 | `with_ttl_hours(h)` has a time-to-live of `h * 3600` seconds |
| `Cache.Cache.Get` | src/cache.rs:126-149 | no file gives nothing; an expired file is removed and gives nothing; otherwise the decoded file text; no other file changes |
| `Cache.Cache.Set` | src/cache.rs:173-179 | the key's file holds the new text, written now; every other file is unchanged |
| `Cache.Cache.Clear` | src/cache.rs:188-198 | removing entries one at a time leaves exactly the files without the `json` extension |
| `Cache.SetThenGet` | src/cache.rs:126-179 | after `set`, the key's entry is expired iff more than the time-to-live has passed and holds the written text; other keys' files are untouched |
| `Cache.ExpiryBoundary` | src/cache.rs:134-144 | an entry is fresh up to and including `t + ttl` and stale after it; an entry without a modification time never expires |
| `Cache.ClearForgetsKeys` | src/cache.rs:188-198 | after `clear` no non-empty key has a file, while the empty key's file survives |
| `Cli.ClassifyMajorIff` | src/output/cli.rs:273-304 | `classify_update` says "MAJOR" exactly when the health score and summary count the update as major |
| `Cli.ClassifyMinorIff` | src/output/cli.rs:273-304 | "minor" exactly when not major, both minors read, the majors read the same (failing both counts as the same) and the latest minor is greater; the result is always "MAJOR", "minor" or "patch" |
| `Cli.UnreadableMajorsQuirk` | src/output/cli.rs:284-298 | two unreadable majors compare equal: `x.1` to `y.2` is a "minor" update |
| `Cli.Clamp` | src/output/cli.rs:392 | the clamped score is at most 100, and a score already in 0..100 is kept |
| `Cli.HealthScore` | src/output/cli.rs:350-393 | the health score is at most 100, and exactly 100 when nothing was scanned |
| `Cli.CalculateHealthScore` | src/output/cli.rs:350-393 | the running score lowered by 25/15/8/3/5 per vulnerability and 5 per major or 2 per other outdated record, then clamped, equals the health score |
| `Cli.VulnDeductionsPositive` | src/output/cli.rs:358-366 | every vulnerability costs at least 3, and the deduction is zero only without vulnerabilities |
| `Cli.OutdatedDeductionsPositive` | src/output/cli.rs:369-390 | every outdated record costs at least 2, and the deduction is zero only without records |
| `Cli.HealthPerfectIff` | src/output/cli.rs:350-393 | the score is 100 iff nothing was scanned, or nothing was found |
| `Cli.MoreVulnerabilitiesLower` | src/output/cli.rs:358-366 | one more vulnerability never raises the score |
| `Cli.MoreOutdatedLower` | src/output/cli.rs:369-390 | one more outdated record never raises the score |
| `Cli.HealthIndicatorMonotone` | src/output/cli.rs:395-403 | within 0..100 a higher score never falls in a worse band |
| `Cli.Truncate` | src/output/cli.rs:256-262 | a cell that fits is unchanged; a longer one keeps its first `max - 3` characters followed by "...", so it is exactly `max` long |
| `Cli.TruncateIdempotent` | src/output/cli.rs:256-262 | a truncated cell fits, and truncating it again changes nothing |
| `Cli.FormatVersion` | src/output/cli.rs:264-270 | "unknown" is shown as "-"; every other version as itself |
| `Cli.RiskLevelLabels` | src/output/cli.rs:237-244 | a report's band is labelled LOW exactly for totals up to 20 and CRITICAL exactly above 300 |
| `Cli.WithSeverityCount` | src/output/cli.rs:94-101 | a record occurs in its own severity's group as often as in the input, and in no other group |
| `Cli.SortBySeverityPermutation` | src/output/cli.rs:94-101 | the sorted vulnerability list is a permutation of the input |
| `Cli.WithSeverityAll` | src/output/cli.rs:94-101 | each severity group holds only records of that severity |
| `Cli.SortBySeveritySorted` | src/output/cli.rs:94-101 | the sorted list runs Critical, High, Medium, Low, Unknown |
| `Cli.SortBySeverityStable` | src/output/cli.rs:94-101 | records of one severity keep their input order |
| `Cli.SortBySeveritySpec` | src/output/cli.rs:94-101 | the vulnerability table is ordered by severity key, is a permutation of the input, and is stable |
| `Cli.HighRiskNames` | src/output/cli.rs:197-210 | the listed high-risk permissions are at most as many as the report's permissions |
| `Cli.HighRiskNamesPositions` | src/output/cli.rs:197-210 | the names are those of the critical and high permissions, one per such permission, at increasing positions: the report's order is kept and no other permission is listed |
| `Cli.HighRiskNamesMember` | src/output/cli.rs:197-210 | a name is listed exactly when some critical or high permission has it |
| `Cli.RowOf` | src/output/cli.rs:195-222 | a row shows the report's total and issue count, a name of at most 30 and a permission cell of at most 35 characters |
| `Cli.InsertRow` | src/output/cli.rs:226-231 | inserting a row adds exactly one |
| `Cli.SortRows` | src/output/cli.rs:226-231 | sorting the rows keeps their number |
| `Cli.InsertRowPermutation` | src/output/cli.rs:226-231 | inserting a row adds exactly that row to the multiset |
| `Cli.SortRowsPermutation` | src/output/cli.rs:226-231 | the sorted risk rows are a permutation of the rows |
| `Cli.InsertRowSorted` | src/output/cli.rs:226-231 | inserting into rows ordered by descending score keeps them ordered |
| `Cli.SortRowsSorted` | src/output/cli.rs:226-231 | the sorted rows are ordered by descending score |
| `Cli.InsertRowStable` | src/output/cli.rs:226-231 | an inserted row comes after the rows of its score already there |
| `Cli.SortRowsStable` | src/output/cli.rs:226-231 | rows of equal score keep their original order, as the stable `sort_by` does |
| `Cli.ExtensionRiskTableSpec` | src/output/cli.rs:155-235 | the printed rows are a permutation of the rows of the extensions with a report above 20, ordered by score, highest first, ties in package order; each is such a package's row |
| `Cli.RiskRowsFrom` | src/output/cli.rs:155-222 | every row comes from a Chrome, Edge, Firefox or VS Code package whose report totals more than 20 |
| `Cli.RiskRowsCount` | src/output/cli.rs:155-222 | every such package gets its row, and there are no more rows than packages |
| `Cli.MajorCount` | src/output/cli.rs:466-482 | the summary's major count is at most the number of outdated records |
| `Cli.MajorCountMatches` | src/output/cli.rs:466-482 | the summary's count is the number of rows the table marks "MAJOR", and the health score deducts 5 for each of them and 2 for every other record |
| `Config.InOrderSuffix` | src/config.rs:160-172 | pieces found in order in a suffix of the text are found in order in the text |
| `Config.GreedyIff` | src/config.rs:160-172 | taking each middle piece at its leftmost occurrence decides exactly whether the pieces occur in order without overlapping |
| `Config.FindEmpty` | src/config.rs:161-163 | an empty piece is found at position 0, so skipping it changes nothing |
| `Config.MatchMiddle` | src/config.rs:160-172 | the loop over the middle pieces, skipping empty ones and cutting after each leftmost occurrence, computes the greedy search |
| `Config.StripEnds` | src/config.rs:144-158 | the prefix and suffix checks succeed iff the text starts with the first piece, ends with the last and has room for both; what is left is the text between them |
| `Config.SuffixOfRest` | src/config.rs:152-158 | after the prefix is cut off, the suffix check on the rest is the suffix check on the whole text with room for both pieces |
| `Config.GlobMatch` | src/config.rs:137-176 | `glob_match` holds exactly when the declarative meaning holds: the text starts with the part before the first `*`, ends with the part after the last, and the middle parts occur in order between them, without overlapping |
| `Config.GlobNoStar` | src/config.rs:140-142 | a pattern without `*` matches only itself |
| `Config.GlobStarAll` | src/config.rs:137-176 | `*` matches every identifier |
| `Config.GlobPrefix` | src/config.rs:144-150 | `p*` matches exactly the identifiers starting with `p` |
| `Config.GlobSuffix` | src/config.rs:152-158 | `*p` matches exactly the identifiers ending with `p` |
| `Config.GlobInfix` | src/config.rs:160-172 | `*p*` matches exactly the identifiers containing `p` |
| `Config.GlobDoubleStar` | src/config.rs:160-164 | `a**b` matches exactly what `a*b` matches: the empty middle part is skipped |
| `Config.EntryMatchesGlob` | src/config.rs:109-117 | testing an entry for `*` first changes nothing: an entry matches by equality or by glob exactly as the glob alone would |
| `Config.MatchesAny` | src/config.rs:109-133 | the package and outdated lists ignore an identifier iff some entry matches it, by glob when the entry holds `*`, by equality otherwise |
| `Config.EmptyIgnoresNothing` | src/config.rs:107-133 | empty ignore lists ignore nothing |
| `Config.ExactEntry` | src/config.rs:109-117 | an entry without `*` ignores exactly its own identifier |
| `Config.VulnerabilityNotGlob` | src/config.rs:120-122 | a vulnerability entry holding `*` still matches only itself: no globbing |
| `Config.DefaultConfig` | src/config.rs:178-196 | the default: a 24-hour cache, the sources VS Code, Chrome, Edge, Firefox, npm and Homebrew in that order, vulnerability and outdated checks on, table output, nothing ignored |
| `CycloneDx.PurlType` | src/output/cyclonedx.rs:104-118 | the purl type of every source is lowercase; it is the source's identifier, except Homebrew's, which is "brew" |
| `CycloneDx.SeverityName` | src/output/cyclonedx.rs:120-128 | the rating name is the severity's own lowercase name |
| `CycloneDx.BuildComponents` | src/output/cyclonedx.rs:134-180 | the components loop gives one component per package, in package order |
| `CycloneDx.BuildComponent` | src/output/cyclonedx.rs:135-179 | one iteration pushes the references one by one and builds the package's component |
| `CycloneDx.ExternalRefsSpec` | src/output/cyclonedx.rs:142-154 | a website reference iff there is a homepage, a vcs reference iff there is a repository, nothing else, the website first, each carrying its url |
| `CycloneDx.LicensesSpec` | src/output/cyclonedx.rs:156-165 | exactly one license entry iff the package has a license, and it is that license |
| `CycloneDx.PurlSpec` | src/output/cyclonedx.rs:135-140 | the purl is `pkg:{type}/`, the id verbatim, then `@{version}` |
| `CycloneDx.PurlAmbiguous` | src/output/cyclonedx.rs:135-140 | without percent-encoding, an id holding `@` gives the same purl as another id and version |
| `CycloneDx.VulnerabilitySpec` | src/output/cyclonedx.rs:182-205 | an entry has bom-ref `vuln-{id}`, the description or else the title, a recommendation ending in the fixed version iff one is known, one rating with method "other" and the severity's name, and affects exactly the vulnerability's package |
| `CycloneDx.HexChar` | src/output/cyclonedx.rs:338-345 | a hex digit is rendered as a lowercase hex character |
| `CycloneDx.HexCharValue` | src/output/cyclonedx.rs:338-345 | a lowercase hex character is worth less than 16 |
| `CycloneDx.Pow16Values` | src/output/cyclonedx.rs:338-345 | the widths of the five groups bound their values by 0x1000, 0x1_0000, 0x1_0000_0000 and 0x1_0000_0000_0000 |
| `CycloneDx.Hex` | src/output/cyclonedx.rs:338-345 | `{:0Nx}` of a value below `16^N` is exactly `N` lowercase hex digits |
| `CycloneDx.HexValueOfHex` | src/output/cyclonedx.rs:338-345 | the digits written are worth the value rendered |
| `CycloneDx.TimeHigh` | src/output/cyclonedx.rs:340 | `(now >> 96) as u32` is a 32-bit value |
| `CycloneDx.TimeMid` | src/output/cyclonedx.rs:341 | `(now >> 80) as u16` is a 16-bit value |
| `CycloneDx.TimeLow` | src/output/cyclonedx.rs:342 | `(now >> 68) as u16 & 0x0fff` is a 12-bit value |
| `CycloneDx.ClockSeq` | src/output/cyclonedx.rs:343 | the masked clock sequence with the top bit set lies in 0x8000..0xBFFF |
| `CycloneDx.MasksAreRemainders` | src/output/cyclonedx.rs:342-343 | on 16-bit words the masks are remainders and setting the top bit an addition, within 0x8000..0xBFFF |
| `CycloneDx.Node` | src/output/cyclonedx.rs:344 | `now as u64 & 0xffffffffffff` is a 48-bit value |
| `CycloneDx.UuidSpec` | src/output/cyclonedx.rs:328-346 | the serial is 36 characters: lowercase hex with dashes at 8, 13, 18 and 23, the version digit `4` at 14 (section 4.1.3 of RFC 4122), and a fourth group in 0x8000..0xBFFF, starting with 8, 9, a or b (the variant of section 4.1.1) |
| `CycloneDx.UuidFields` | src/output/cyclonedx.rs:338-345 | each group renders its field of the clock reading |
| `CycloneDx.LeadingHexDigit` | src/output/cyclonedx.rs:343 | a four-digit group worth 0x8000..0xBFFF starts with 8, 9, a or b |
| `CycloneDx.BuildBom` | src/output/cyclonedx.rs:131-229 | printing and `generate_cyclonedx_string` build the same document: the components loop, then the vulnerabilities mapped in order |
| `CycloneDx.BomHeader` | src/output/cyclonedx.rs:207-222 | the header is CycloneDX, spec version 1.5, version 1, and the serial `urn:uuid:` followed by the 36-character UUID |
| `CycloneDx.UuidLength` | src/output/cyclonedx.rs:338-345 | the UUID text is 36 characters long |
| `CycloneDx.BomSpec` | src/output/cyclonedx.rs:131-229 | one "library" component per package with bom-ref the id and a purl written, one entry per vulnerability in order, and the vulnerabilities key written iff there are vulnerabilities |
| `CycloneDx.VulnerabilitiesKey` | src/output/cyclonedx.rs:21-22 | the vulnerabilities key is written iff the list is non-empty |
| `CycloneDx.PurlKeyWritten` | src/output/cyclonedx.rs:48-49 | a component with a purl writes the purl key |
| `CycloneDx.AffectsResolve` | src/output/cyclonedx.rs:182-205 | an entry's affected reference is the bom-ref of its package's component whenever that package was scanned |
| `ExtensionRisk.ScoreFollowsRank` | src/checker/extension_risk.rs:14-41 | the weights 100, 50, 20, 5, 0 order the risk levels exactly as their ranks do, and distinct levels have distinct weights and distinct names |
| `ExtensionRisk.HostScoreFollowsRank` | src/checker/extension_risk.rs:80-97 | host scopes weigh 0, 5, 30, 80 in the order none, specific, broad, all URLs: a wider scope always weighs more |
| `ExtensionRisk.GetPermissionRisk` | src/checker/extension_risk.rs:109-223 | the risk of a permission carries the permission's name and is never rated `none` |
| `ExtensionRisk.PermissionLevels` | src/checker/extension_risk.rs:181-223 | the level is that of the first table, from critical down to low, that lists the permission; a warning is present exactly when some table lists it, and it is that table's warning; an unlisted permission is low and described as unknown |
| `ExtensionRisk.CriticalSample` | src/checker/extension_risk.rs:452-453 | `debugger` is critical |
| `ExtensionRisk.HighSample` | src/checker/extension_risk.rs:452-454 | `tabs` is high |
| `ExtensionRisk.MediumSample` | src/checker/extension_risk.rs:452-455 | `activeTab` is medium |
| `ExtensionRisk.LowSample` | src/checker/extension_risk.rs:452-456 | `storage` is low |
| `ExtensionRisk.ExtractDomainSpec` | src/checker/extension_risk.rs:270-287 | once the four scheme prefixes are stripped in order, there is no domain exactly when the segment before the first `/` is the bare `*`; otherwise the domain is that segment, free of `/`, a prefix of the stripped pattern ending at its first `/` |
| `ExtensionRisk.AnyHostIff` | src/checker/extension_risk.rs:235-264 | the backward scan over the hosts finds a match exactly when some host matches |
| `ExtensionRisk.AnyAllUrlsIff` | src/checker/extension_risk.rs:236-241 | some trimmed host is one of the four all-URLs patterns exactly when the scan says so |
| `ExtensionRisk.AnyBroadIff` | src/checker/extension_risk.rs:242-257 | some trimmed host has a wildcard domain exactly when the scan says so |
| `ExtensionRisk.HostScopeCases` | src/checker/extension_risk.rs:227-267 | the scope is none exactly for no hosts, all URLs exactly when some trimmed host is an all-URLs pattern, broad exactly when none is and some has a wildcard domain, and specific otherwise |
| `ExtensionRisk.DedupProperties` | src/checker/extension_risk.rs:260-263 | the domain list keeps every domain, adds none and holds no repeats |
| `ExtensionRisk.DedupPrefix` | src/checker/extension_risk.rs:260-263 | domains are kept in first-seen order: a longer host list only appends domains |
| `ExtensionRisk.DedupOfDistinct` | src/checker/extension_risk.rs:260-263 | a list of distinct domains is kept as it is |
| `ExtensionRisk.HostStep` | src/checker/extension_risk.rs:235-264 | one more host moves the scope by the loop body's rule and appends its domain when it is new |
| `ExtensionRisk.ScanHostScope` | src/checker/extension_risk.rs:239-257 | the loop body sets all URLs for the four patterns, and raises any scope but all URLs to broad for a wildcard domain |
| `ExtensionRisk.AnalyzeHostPermissions` | src/checker/extension_risk.rs:227-267 | the returned scope is the widest found among the trimmed hosts and the domains are their distinct domains in first-seen order, with no repeats and none missing |
| `ExtensionRisk.RemoteStepKeeps` | src/checker/extension_risk.rs:332-338 | a remote script source touches neither the score, the issues, nor the other flags |
| `ExtensionRisk.ScanScriptValue` | src/checker/extension_risk.rs:321-339 | one `script-src` or `default-src` value adds 40 and an issue for `'unsafe-eval'`, 30 and an issue for `'unsafe-inline'`, and marks an `http://` or `https://` source as remote, recording its domain |
| `ExtensionRisk.ScanConnectValue` | src/checker/extension_risk.rs:341-350 | one `connect-src` value that is remote or holds `*` records its domain when it is new |
| `ExtensionRisk.ScanValues` | src/checker/extension_risk.rs:318-353 | the values of one directive are handled in order by its directive's rule, and other directives are ignored |
| `ExtensionRisk.AnalyzeCsp` | src/checker/extension_risk.rs:290-365 | a missing or empty policy scores 30 with one issue; otherwise the policy is analysed directive by directive, then 10 points and an issue are added per recorded domain once a remote script source was seen |
| `ExtensionRisk.ValuesStepEffect` | src/checker/extension_risk.rs:318-353 | one directive adds 40 per `'unsafe-eval'` and 30 per `'unsafe-inline'` among script source values, one issue each, and sets each flag exactly when its keyword occurs |
| `ExtensionRisk.ScriptValueStepEffect` | src/checker/extension_risk.rs:321-339 | a script source value adds points and issues only for the two unsafe keywords |
| `ExtensionRisk.ConnectValueStepEffect` | src/checker/extension_risk.rs:341-350 | a `connect-src` value changes nothing but the recorded domains |
| `ExtensionRisk.OccurrencesAppend` | src/checker/extension_risk.rs:321-331 | keyword counts add up over concatenated value lists |
| `ExtensionRisk.DirectivesStepEffect` | src/checker/extension_risk.rs:305-353 | after all directives, score, issue count and flags are given by the unsafe keywords among the script source values of the whole policy |
| `ExtensionRisk.CspScore` | src/checker/extension_risk.rs:290-365 | the CSP score in closed form: 30 for a missing policy, else 40 per `'unsafe-eval'`, 30 per `'unsafe-inline'` and 10 per recorded domain once remote scripts are allowed, and each flag is set exactly when its keyword occurs |
| `ExtensionRisk.ScriptDomainsAppend` | src/checker/extension_risk.rs:321-338 | the domains script sources record over concatenated value lists are those of each list, in order |
| `ExtensionRisk.ConnectDomainsAppend` | src/checker/extension_risk.rs:342-349 | the domains `connect-src` sources offer over concatenated value lists are those of each list, in order |
| `ExtensionRisk.HasRemoteAppend` | src/checker/extension_risk.rs:333 | a concatenation of value lists has an `http://` or `https://` source exactly when one of the lists has |
| `ExtensionRisk.ScriptValueStepDomains` | src/checker/extension_risk.rs:332-338 | a script source value sets the remote flag exactly when it starts with `http://` or `https://`, and then appends its domain, repeats included |
| `ExtensionRisk.ConnectValueStepDomains` | src/checker/extension_risk.rs:341-350 | a `connect-src` value leaves the remote flag alone; the domain of an `http://`, `https://` or wildcard source is appended once when it is not recorded yet, and the list stays exactly as it was when it is |
| `ExtensionRisk.ConnectValuesAppendFresh` | src/checker/extension_risk.rs:341-350 | a whole `connect-src` directive keeps the recorded list as a prefix and only appends domains that were not recorded before, that one of its values offers, and never the same one twice |
| `ExtensionRisk.DirectiveOrderDomains` | src/checker/extension_risk.rs:319-350 | for a remote source with domain `d` not yet recorded, a `connect-src` value then a script value records `d` twice, while a script value then a `connect-src` value records it once |
| `ExtensionRisk.ValuesStepDomains` | src/checker/extension_risk.rs:319-353 | over one directive's values: the remote flag is set exactly when a script source is remote; a domain is recorded exactly when it was before or a value offers it; without `connect-src` domains the script domains are appended in order |
| `ExtensionRisk.DomainsFromCompose` | src/checker/extension_risk.rs:305-354 | the remote-flag and domain facts of two runs of directives combine into those of the whole run |
| `ExtensionRisk.DirectivesStepDomains` | src/checker/extension_risk.rs:305-354 | over all directives of a policy, the remote flag and the recorded domains are given by the script and `connect-src` values of the policy text |
| `ExtensionRisk.CspDomains` | src/checker/extension_risk.rs:290-362 | no policy records neither remote scripts nor domains; otherwise remote scripts are allowed exactly when a script source is `http://` or `https://`, a domain is recorded exactly when a remote script source or a remote or wildcard `connect-src` source has it, and without `connect-src` domains the script domains are kept in order with repeats |
| `ExtensionRisk.NameAndTwice` | src/checker/extension_risk.rs:306-317 | a directive name followed by the same source twice splits into those three words unchanged |
| `ExtensionRisk.WordsOfThree` | src/checker/extension_risk.rs:311 | a name and a source given twice, one space apart, split into those three words |
| `ExtensionRisk.RepeatedSourceWords` | src/checker/extension_risk.rs:305-317 | `script-src w w` is a single directive of three words |
| `ExtensionRisk.RepeatedSourceValues` | src/checker/extension_risk.rs:305-341 | the script source values of `script-src w w` are `w` twice, and it has no `connect-src` values |
| `ExtensionRisk.RemoteTwice` | src/checker/extension_risk.rs:321-338 | a remote source given twice records its domain twice and no unsafe keyword |
| `ExtensionRisk.RemoteOnce` | src/checker/extension_risk.rs:321-338 | a remote script source records its domain once and is neither unsafe keyword |
| `ExtensionRisk.CspRepeatedScriptSource` | src/checker/extension_risk.rs:290-362 | a policy naming the same remote script source twice records its domain twice and scores 20 |
| `ExtensionRisk.OrderedPolicy` | src/checker/extension_risk.rs:303-352 | analysing the policy `n1 w;n2 w` applies the one-value directive `n1 w` and then `n2 w`, before the closing summary |
| `ExtensionRisk.CspDirectiveOrder` | src/checker/extension_risk.rs:290-362 | the order of directives changes the result: for a remote source `w` with domain `d`, `script-src w;connect-src w` records `[d]` and scores 10, while `connect-src w;script-src w` records `[d, d]` and scores 20 |
| `ExtensionRisk.RiskBandMonotone` | src/checker/extension_risk.rs:436-441 | a higher total never falls in a lower band |
| `ExtensionRisk.RequiredRisks` | src/checker/extension_risk.rs:377-381 | one risk entry per required permission |
| `ExtensionRisk.OptionalRisks` | src/checker/extension_risk.rs:384-390 | one risk entry per optional permission |
| `ExtensionRisk.RequiredStep` | src/checker/extension_risk.rs:377-381 | one more required permission adds its full weight and appends its risk entry |
| `ExtensionRisk.OptionalStep` | src/checker/extension_risk.rs:384-390 | one more optional permission adds half its weight, rounded down, and appends its entry with the `(optional)` suffix |
| `ExtensionRisk.ScoreRequired` | src/checker/extension_risk.rs:377-381 | the required-permission loop computes the sum of full weights and the risk entries in order |
| `ExtensionRisk.ScoreOptional` | src/checker/extension_risk.rs:384-390 | the optional-permission loop computes the sum of half weights and the suffixed entries in order |
| `ExtensionRisk.CountCritical` | src/checker/extension_risk.rs:415-417 | the number of critical entries among the risks |
| `ExtensionRisk.RaiseIssues` | src/checker/extension_risk.rs:405-433 | the issues are all-URLs access, then the count of critical permissions when there are some, then an eval-permitting policy |
| `ExtensionRisk.AnalyzeExtension` | src/checker/extension_risk.rs:368-445 | the report is the assembled report of the permission, host and CSP analyses |
| `ExtensionRisk.AssembledFromParts` | src/checker/extension_risk.rs:368-445 | a report whose every field is the specified one is the assembled report |
| `ExtensionRisk.ReportTotal` | src/checker/extension_risk.rs:377-441 | the total is the full required weights plus half the optional weights plus the host scope and CSP scores, and the band is low up to 20, medium up to 100, high up to 300 and critical above |
| `ExtensionRisk.ReportTotalWithoutHostsOrCsp` | src/checker/extension_risk.rs:290-299 | without host permissions or a policy the total is the permission weights plus 30 |
| `ExtensionRisk.CriticalCountAppend` | src/checker/extension_risk.rs:415-417 | critical counts add up over concatenated risk lists |
| `ExtensionRisk.CriticalCountPositive` | src/checker/extension_risk.rs:415-418 | the count is positive exactly when some risk is critical |
| `ExtensionRisk.CriticalRisksIff` | src/checker/extension_risk.rs:377-390 | some required, or some optional, entry is critical exactly when its permission is in the critical table |
| `ExtensionRisk.CriticalIssueIff` | src/checker/extension_risk.rs:415-425 | the critical-permission issue is raised exactly when some required or optional permission is in the critical table |
| `ExtensionRisk.ReportIssuesShape` | src/checker/extension_risk.rs:405-433 | one issue per finding in a fixed order, all-URLs first and eval last, each of them critical except the eval issue |
| `Firefox.ParseFirefoxAddon` | src/scanner/firefox.rs:148-197 | an entry gives no package exactly when it has no identifier or a built-in `@mozilla.org` / `@shield.mozilla.org` one; otherwise the package has the entry's identifier, its name or else the identifier, its version or else `unknown`, its description, author name and homepage, and the risk report of the API permissions, the optional permissions and the granted origins followed by the host-like permissions, without a policy |
| `Firefox.PartitionAppend` | src/scanner/firefox.rs:177-182 | both halves of the permission partition distribute over concatenation, so order is kept |
| `Firefox.PartitionSides` | src/scanner/firefox.rs:177-182 | the API half holds only permissions without `://` and without a leading `<`, the other half only the rest |
| `Firefox.PartitionCounts` | src/scanner/firefox.rs:177-182 | together the two halves hold every permission as often as the list does |
| `Firefox.FirefoxRiskWithoutCsp` | src/scanner/firefox.rs:184-190 | a listed add-on's report has no policy, a CSP score of 30, the origins then host-like permissions as host list, and the total in closed form |
| `Firefox.ScanProfile` | src/scanner/firefox.rs:107-146 | the profile's packages are the listed add-ons in entry order followed by one package per `.xpi` file whose identifier is not yet present |
| `Firefox.XpiStepsSpec` | src/scanner/firefox.rs:124-143 | the listed add-ons stay in front; each further package has unknown version, a path, an identifier no earlier package has, and comes from an `.xpi` file name with its trailing `.xpi` removed |
| `Firefox.XpiStepSpec` | src/scanner/firefox.rs:132-140 | one file adds at most one package, behind the others, with a fresh identifier taken from an `.xpi` name |
| `Firefox.FindId` | src/scanner/firefox.rs:135 | the search answers whether some package has the identifier |
| `Firefox.MergeProfile` | src/scanner/firefox.rs:95-100 | merging a profile keeps the first package per identifier over everything seen so far |
| `Firefox.MergeProfiles` | src/scanner/firefox.rs:81-103 | the scan keeps the first package seen for each identifier across profiles |
| `Firefox.FirstByIdSpec` | src/scanner/firefox.rs:95-100 | the merged list has one package per identifier, loses no identifier, and keeps for each identifier the first package that had it |
| `Firefox.PushNewSpec` | src/scanner/firefox.rs:97-99 | a push appends the package exactly when its identifier is new, and otherwise changes nothing |
| `Firefox.FirstByIdDistinct` | src/scanner/firefox.rs:95-100 | no two merged packages share an identifier |
| `Firefox.FirstByIdCovers` | src/scanner/firefox.rs:95-100 | every identifier seen has a merged package |
| `Firefox.FirstByIdFirst` | src/scanner/firefox.rs:95-100 | each merged package is the first one seen with its identifier |
| `Html.ReplaceCharAppend` | src/output/html.rs:381-386 | replacing one character distributes over concatenation |
| `Html.HtmlEscapeAppend` | src/output/html.rs:381-386 | escaping distributes over concatenation |
| `Html.ReplaceCharSingle` | src/output/html.rs:381-386 | a one-character text is replaced exactly when it is the character |
| `Html.ReplaceCharAbsent` | src/output/html.rs:381-386 | a text free of the character is left alone |
| `Html.HtmlEscapeChar` | src/output/html.rs:381-386 | the four passes turn each single character into its entity, `&` first so that no entity is escaped again |
| `Html.LastThreePasses` | src/output/html.rs:383-385 | an entity without `<`, `>` and `"` passes the last three replacements unchanged |
| `Html.LastTwoPasses` | src/output/html.rs:384-385 | an entity without `>` and `"` passes the last two replacements unchanged |
| `Html.HtmlEscapeEach` | src/output/html.rs:381-386 | the four passes equal the character-by-character reference escape |
| `Html.EscapeEachSpec` | src/output/html.rs:381-386 | the reference escape leaves no `<`, `>` or `"`, and grows the text by 4, 3, 3 and 5 characters per `&`, `<`, `>` and `"` |
| `Html.EscapeCharSpec` | src/output/html.rs:381-386 | one escaped character holds no markup and has its entity's length |
| `Html.NoMarkupAppend` | src/output/html.rs:381-386 | texts without markup concatenate to a text without markup |
| `Html.HtmlEscapeSpec` | src/output/html.rs:381-386 | an escaped text holds no `<`, `>` or `"`, and its length grows by 4, 3, 3 and 5 per `&`, `<`, `>` and `"` |
| `Html.HtmlEscapePlain` | src/output/html.rs:381-386 | a text without any of the four characters is unchanged |
| `Html.StartsWithOwn` | src/output/html.rs:381-386 | a text followed by more starts with that text |
| `Html.UnescapeEscape` | src/output/html.rs:381-386 | escaping loses nothing: reading the four entities back gives the input |
| `Html.UnescapeStep` | src/output/html.rs:381-386 | one escaped character reads back to itself |
| `Html.PlainStep` | src/output/html.rs:381-386 | a character without an entity reads back to itself |
| `Html.UnescapeEach` | src/output/html.rs:381-386 | the reference escape reads back to the input |
| `Html.HealthClassMatchesIndicator` | src/output/html.rs:145-151 | the card's class bands 90, 70, 50 and 25 are the bands of the terminal's health indicator |
| `Html.UpdateClassSpec` | src/output/html.rs:270-275 | a row is styled major exactly for a major update, and minor exactly for a minor one |
| `Html.SeverityClass` | src/output/html.rs:212-218 | the severity cell has no class exactly for an unknown severity |
| `Html.VersionCell` | src/output/html.rs:332-336 | an unknown version shows as `-` |
| `Html.VersionCellMatchesCli` | src/output/html.rs:332-336 | on a version without markup characters the cell shows what the terminal's version column shows |
| `Html.FixedCell` | src/output/html.rs:234-237 | no fixed version shows as `-`, and a fixed version is shown escaped, without markup |
| `Html.SourcesOfAppend` | src/output/html.rs:463-471 | one more package adds exactly its source to the set of sources |
| `Html.CountSourcesSpec` | src/output/html.rs:463-471 | the number of distinct sources counts the packages whose source no earlier package had; it is at most the number of packages and zero only for none |
| `Npm.AuthorDisplaySpec` | src/scanner/npm.rs:43-55 | an author string renders as itself; a name alone or an email alone renders as just that; name and email render as the name, a space, then the email in angle brackets; nothing renders as the empty text |
| `Npm.RepositoryUrl` | src/scanner/npm.rs:64-71 | a bare repository is its own URL; an object gives its `url` field, which may be missing |
| `Npm.Publisher` | src/scanner/npm.rs:132-135 | the publisher is the rendered author, present exactly when an author exists and renders non-empty |
| `Npm.DependencyMetadata` | src/scanner/npm.rs:129-150 | a homepage is always present, the registry page when the manifest gives none; without a manifest only the resolved URL is kept as repository; with one, its fields are taken and the repository falls back to the resolved URL |
| `Npm.DependencyPackage` | src/scanner/npm.rs:124-160 | a dependency becomes an npm package named by its key, of its version or else `unknown`, with an install path exactly when the prefix is known, its metadata, and no risk report |
| `Npm.ScanResultOf` | src/scanner/npm.rs:87-165 | a command that cannot start is the error "Failed to execute npm. Is npm installed?"; a failed run with empty output is no packages; undecodable output is a parse error; otherwise the dependencies' packages |
| `Npm.ScanDependencies` | src/scanner/npm.rs:117-162 | the loop gives the packages of the dependencies in order, npm itself left out |
| `Npm.DependencyPackagesLast` | src/scanner/npm.rs:118-161 | one more dependency appends exactly its package, unless it is npm |
| `Npm.DependencyPackagesFrom` | src/scanner/npm.rs:118-161 | every package comes from a dependency other than npm |
| `Npm.DependencyPackagesCover` | src/scanner/npm.rs:118-161 | every dependency other than npm gives a package |
| `Npm.InstallPathSpec` | src/scanner/npm.rs:156-158 | the install path lies under `lib/node_modules` of the prefix and ends with the package name |
| `Osv.Pow10` | src/checker/osv.rs:214 | a power of ten is at least one |
| `Osv.NumericBands` | src/checker/osv.rs:214-222 | a finite numeric score is critical from 9, high from 7 below 9, medium from 4 below 7, low above 0 below 4, and unknown at 0 and below |
| `Osv.VectorBands` | src/checker/osv.rs:225-235 | a text that is no number but holds `CVSS:` is high exactly when some impact is high, medium exactly when none is high and some is low, otherwise low; never critical or unknown |
| `Osv.OtherUnknown` | src/checker/osv.rs:225-237 | a text that is neither a number nor a vector is unknown |
| `Osv.FloatTextChars` | src/checker/osv.rs:214 | whatever parses as a number is made of digits, signs, points, exponent marks and the letters of `inf`, `infinity` and `nan` |
| `Osv.VectorIsNoNumber` | src/checker/osv.rs:212-237 | a text holding `CVSS:` never parses as a number, so it always reaches the vector reading |
| `Osv.PointDecimal` | src/checker/osv.rs:214 | digits, a point and digits parse as the whole part plus the fraction over its power of ten |
| `Osv.DigitFloat` | src/checker/osv.rs:214 | a lowercase text that starts with a digit and reads as a decimal parses as that finite number |
| `Osv.OneDecimalText` | src/checker/osv.rs:214 | a digit, a point and a digit parse as the digit plus a tenth of the second |
| `Osv.HighSamples` | src/checker/osv.rs:273-284 | `9.0` and `9.8` are critical; `7.0`, `8.5` and `7.9` are high |
| `Osv.MediumSamples` | src/checker/osv.rs:287-291 | `4.0`, `5.5` and `6.9` are medium |
| `Osv.LowSamples` | src/checker/osv.rs:294-298 | `0.1`, `1.0` and `3.9` are low |
| `Osv.ZeroSample` | src/checker/osv.rs:301-302 | `0.0` is unknown |
| `Osv.TwoDigitSample` | src/checker/osv.rs:276 | `10.0` is critical |
| `Osv.NegativeSample` | src/checker/osv.rs:303 | `-1.0` is unknown |
| `Osv.NoFloatChar` | src/checker/osv.rs:214 | a text holding a character no number text can hold is no number |
| `Osv.TextSample` | src/checker/osv.rs:304 | `not a number` is unknown |
| `Osv.VectorHigh` | src/checker/osv.rs:308-324 | a vector holding a high confidentiality, integrity or availability impact is high |
| `Osv.ParseSeverity` | src/checker/osv.rs:240-253 | the loop returns the severity of the first score present that classifies, and unknown when there is none |
| `Osv.FirstKnownSeveritySpec` | src/checker/osv.rs:240-253 | the severity is unknown exactly when no score classifies; otherwise it is that of some score, every earlier entry being absent or unknown |
| `Osv.FirstKnownSpec` | src/checker/osv.rs:242-249 | the first-classifying scan returns the first entry's severity that is not unknown |
| `Osv.HeadAppend` | src/checker/osv.rs:255-265 | the first element of a concatenation comes from its first non-empty part |
| `Osv.FixedInEventsFirst` | src/checker/osv.rs:258-262 | within one range, the fixed version is the first `fixed` event |
| `Osv.FixedInRangesFirst` | src/checker/osv.rs:257-263 | within one affected entry, the fixed version is the first `fixed` event of its ranges in order |
| `Osv.FixedInAffectedFirst` | src/checker/osv.rs:256-264 | across affected entries, the fixed version is the first `fixed` event in document order |
| `Osv.ExtractFixedVersionFirst` | src/checker/osv.rs:255-265 | the fixed version is the first of all `fixed` values in affected, range and event order, and none when there are none |
| `Osv.FirstUrl` | src/checker/osv.rs:186-188 | the reference is the url of the first reference that has one, and none when no reference has one |
| `Osv.ToVulnerability` | src/checker/osv.rs:181-198 | the record keeps the entry's id, names the package, takes the summary as title or `Unknown vulnerability`, and the details as description |
| `Osv.GetEcosystem` | src/checker/osv.rs:20-27 | only npm and Homebrew packages have an ecosystem, named `npm` and `Homebrew` |
| `Osv.Checkable` | src/checker/osv.rs:165-170 | each checkable entry is a package of the input at its own position, and has an ecosystem |
| `Osv.CheckableComplete` | src/checker/osv.rs:165-170 | every package with an ecosystem is checkable at its own position, and positions increase along the list |
| `Osv.Chunks` | src/checker/osv.rs:173 | batches are non-empty, at most 100 long, and all but the last are full |
| `Osv.FlattenCons` | src/checker/osv.rs:173 | the batches of a first batch followed by more flatten to it followed by the rest |
| `Osv.ChunksFlatten` | src/checker/osv.rs:173 | the batches make up the checkable packages again, in order |
| `Osv.ChunksIncreasing` | src/checker/osv.rs:173 | every batch of entries with increasing positions keeps them increasing |
| `Osv.BatchPairs` | src/checker/osv.rs:69-79 | each pair names the position of the batch entry with the same index as the answer, and carries that answer's non-empty list |
| `Osv.BatchPairsComplete` | src/checker/osv.rs:69-79 | every non-empty answer at a position of the batch yields the pair of that entry's position and the answer's list |
| `Osv.BatchPairsOrdered` | src/checker/osv.rs:69-79 | the pairs keep the batch's order of positions |
| `Osv.BatchQueryInRange` | src/checker/osv.rs:31-82 | every position a successful batch reports is a position of the input |
| `Osv.EntryVulns` | src/checker/osv.rs:181-198 | one record per reported entry, in answer order |
| `Osv.ChunkVulns` | src/checker/osv.rs:174-177 | a batch whose request fails contributes no records |
| `Osv.FlattenMember` | src/checker/osv.rs:173 | an element of a batch is an element of the flattened batches |
| `Osv.Batches` | src/checker/osv.rs:165-173 | the batches flatten to the checkable packages, and every entry points into the input |
| `Osv.BatchesSpec` | src/checker/osv.rs:165-173 | every batch entry is a checkable package of the input at its own position, and each batch is non-empty and keeps the input order |
| `Osv.ChunksVulnsMember` | src/checker/osv.rs:173-202 | a record of one batch is a record of the check |
| `Osv.JoinedMember` | src/checker/osv.rs:173-202 | an element of one batch's list is an element of the lists joined in order |
| `Osv.BatchRecords` | src/checker/osv.rs:174-201 | one list of records per batch, each that batch's records |
| `Osv.ChunksVulnsJoined` | src/checker/osv.rs:173-202 | the check's records are the batches' records joined in batch order |
| `Osv.ChunksVulnsFrom` | src/checker/osv.rs:173-202 | a record of the check is a record of some batch |
| `Osv.PairsVulnsMember` | src/checker/osv.rs:179-201 | each entry of each pair gives its record for the package at the pair's position |
| `Osv.PairsVulnsFrom` | src/checker/osv.rs:179-201 | each record of a batch's pairs comes from an entry of some pair |
| `Osv.ChunkVulnsPair` | src/checker/osv.rs:174-201 | a record of one batch comes from an entry of the batch's successful answer |
| `Osv.ChunkVulnsFrom` | src/checker/osv.rs:174-201 | every record of one batch is about a package of the batch |
| `Osv.ChunkVulnsComplete` | src/checker/osv.rs:174-201 | every entry a batch's successful answer reports against one of its packages is a record of that batch, for that package |
| `Osv.CheckSpecSound` | src/checker/osv.rs:162-205 | every record of the check is about a scanned package that has an OSV ecosystem |
| `Osv.CheckSpecComplete` | src/checker/osv.rs:162-205 | every entry a batch's successful answer reports against one of its packages becomes a record of the check for that package |
| `Osv.PushEntries` | src/checker/osv.rs:181-200 | the records of one package's entries are appended in order |
| `Osv.PushPairs` | src/checker/osv.rs:179-201 | one batch's answers are attached to the packages at their positions, in answer order |
| `Osv.Check` | src/checker/osv.rs:162-205 | the check gives the records of every batch of checkable packages, 100 to a batch, in order, skipping batches whose request fails |
| `Osv.ChunksVulnsStep` | src/checker/osv.rs:173-202 | one more batch adds its own records behind those of the batches before it |
| `Output.ParseFormat` | src/output/mod.rs:31-47 | a name parses exactly when its lowercase form is one of the five format names or the aliases `cdx` and `sbom` of CycloneDX, and otherwise fails with the message quoting the text as given |
| `Output.ParseFormatName` | src/output/mod.rs:35-40 | every format's own name parses back to it |
| `Output.ParseFormatCaseInsensitive` | src/output/mod.rs:35 | a text parses as its lowercase form does |
| `Output.ParseFormatAliases` | src/output/mod.rs:39 | `cdx` and `sbom`, in any case, select CycloneDX |
| `Output.ConsoleMatchesFile` | src/output/mod.rs:49-71 | the console and the file get the same document for every format but the table, whose file form is the JSON document |
| `Output.FileOutputDistinct` | src/output/mod.rs:60-71 | two different formats write different documents, except the table and JSON formats |
| `Model.ListedSourcesDistinct` | src/model/package.rs:38-69 | the six listed sources have distinct identifiers and distinct display names |
| `Model.ListedSourceLowercase` | src/model/package.rs:28-47 | each listed identifier is a lowercase word, the display name in lower case |
| `Model.DisplayNameLowercase` | src/model/package.rs:38-69 | lowercasing a listed display name gives the identifier |
| `Model.SourceNameSamples` | src/model/package.rs:35-57 | npm is `npm` and `NPM`, VS Code is `vscode` and `VSCode` |
| `Model.Package.WithPath` | src/model/package.rs:218-221 | the install path is set and nothing else changes |
| `Model.Package.WithMetadata` | src/model/package.rs:226-229 | the metadata is replaced and nothing else changes |
| `Model.Package.WithExtensionRisk` | src/scanner/firefox.rs:192-196 | the risk report is attached and nothing else changes |
| `Model.NewPackage` | src/model/package.rs:199-213 | a new package has the given identity and source, no path, no report and empty metadata |
| `Model.BuildersCommute` | src/model/package.rs:218-229 | the builders touch disjoint fields, so their order does not matter |
| `Model.BuildersOverride` | src/model/package.rs:218-229 | a second call of the same builder overrides the first |
| `Sarif.SarifLevel` | src/output/sarif.rs:91-97 | critical and high are `error`, medium is `warning`, low and unknown are `note`, each in both directions |
| `Sarif.SarifLevelMonotone` | src/output/sarif.rs:91-97 | a more severe vulnerability never gets a weaker level |
| `Sarif.FindPackage` | src/output/sarif.rs:106 | the package found has the identifier and is the first that has it; none is found only when no package has it |
| `Sarif.LocationUri` | src/output/sarif.rs:108-111 | the location is the install path of the first package with the vulnerability's package identifier, and that identifier when there is no such package or it has no path |
| `Sarif.ResultMessageSpec` | src/output/sarif.rs:136-145 | the message starts with the severity and `vulnerability in`, names the package and the title, and ends with the fixed version when one is known and with the title otherwise |
| `Sarif.MessagePieces` | src/output/sarif.rs:137-144 | each piece of the message is where it was put |
| `Sarif.BuildSarif` | src/output/sarif.rs:100-173 | the report holds one rule and one result per vulnerability, pushed in turn, in a single run of the extenscan tool |
| `Sarif.ReportSpec` | src/output/sarif.rs:100-173 | version 2.1.0, one run, as many rules and results as vulnerabilities, in order and without merging repeats, each rule and result sharing the vulnerability's id and level |
| `SemVer.ParseNumber` | src/checker/version.rs:146-149 | a parsed major, minor or patch number fits in 64 bits |
| `SemVer.ParseIdentifiers` | src/checker/version.rs:146-149 | a parsed pre-release has one identifier per dot-separated part |
| `SemVer.TextLessIrreflexive` | src/checker/version.rs:151 | no text is before itself in the order alphanumeric identifiers compare by |
| `SemVer.TextLessTransitive` | src/checker/version.rs:151 | the text order is transitive |
| `SemVer.TextLessTotal` | src/checker/version.rs:151 | any two different texts are ordered one way or the other |
| `SemVer.IdentifierLessIrreflexive` | src/checker/version.rs:151 | no identifier is before itself |
| `SemVer.IdentifierLessTransitive` | src/checker/version.rs:151 | the identifier order, numbers by value and below alphanumeric identifiers, is transitive |
| `SemVer.IdentifierLessTotal` | src/checker/version.rs:151 | any two different identifiers are ordered |
| `SemVer.IdentifiersLessIrreflexive` | src/checker/version.rs:151 | no identifier list is before itself |
| `SemVer.IdentifiersLessTransitive` | src/checker/version.rs:151 | the field-by-field order of identifier lists, a proper prefix first, is transitive |
| `SemVer.IdentifiersLessTotal` | src/checker/version.rs:151 | any two different identifier lists are ordered |
| `SemVer.LessIrreflexive` | src/checker/version.rs:151 | no version has lower precedence than itself |
| `SemVer.LessTransitive` | src/checker/version.rs:151 | precedence is transitive |
| `SemVer.LessTotal` | src/checker/version.rs:151 | any two different versions are ordered by precedence one way or the other |
| `SemVer.LessAsymmetric` | src/checker/version.rs:151 | precedence never holds both ways |
| `SemVer.ReleaseOutranksPrerelease` | src/checker/version.rs:151 | a release has higher precedence than each of its pre-releases |
| `SemVer.FormatIdentifiers` | src/checker/version.rs:146-149 | one text per identifier, each being that identifier's text |
| `SemVer.NumericTextOf` | src/checker/version.rs:146-149 | the decimal text of a number is numeric text of that value, free of `.`, `-` and `+` |
| `SemVer.ParseIdentifierFormat` | src/checker/version.rs:146-149 | the text of a well-formed identifier parses back to it |
| `SemVer.ParseIdentifiersFormat` | src/checker/version.rs:146-149 | the texts of well-formed identifiers parse back to them |
| `SemVer.JoinFree` | src/checker/version.rs:146-149 | joining texts free of a character, with another separator, gives a text free of it |
| `SemVer.ParseCoreText` | src/checker/version.rs:146-149 | `MAJOR.MINOR.PATCH` of 64-bit numbers parses back to the three numbers |
| `SemVer.PreText` | src/checker/version.rs:146-149 | the pre-release text has no `+` and splits back into its identifiers |
| `SemVer.ParseMainFormat` | src/checker/version.rs:146-149 | the text of a well-formed version without build metadata parses back to it |
| `SemVer.ParseFormat` | src/checker/version.rs:146-149 | parsing the text of a well-formed version gives it back |
| `SemVer.ParseWellFormed` | src/checker/version.rs:146-149 | whatever parses is well formed, so formatting and precedence apply to it |
| `SemVer.ParseIdentifiersWellFormed` | src/checker/version.rs:146-149 | every parsed pre-release identifier is well formed |
| `Version.IsNewerIrreflexive` | src/checker/version.rs:144-159 | no version is newer than itself |
| `Version.IsNewerSemVer` | src/checker/version.rs:146-152 | between two versions that parse, at most one is newer than the other, and one is when they differ in precedence |
| `Version.IsNewerTransitive` | src/checker/version.rs:146-152 | newer is transitive among versions that parse |
| `Version.UnknownNeverOutdated` | src/checker/version.rs:154-157 | an `unknown` installed version is never outdated, whatever the latest version |
| `Version.NotAVersion` | src/checker/version.rs:146-149 | a text without `.`, `-` or `+` never parses as a version |
| `Version.StripVPrefix` | src/checker/version.rs:147-148 | a leading `v` is removed before parsing |
| `Version.ParsesAs` | src/checker/version.rs:146-149 | the text of a well-formed version parses to it after the `v` strip |
| `Version.ReleaseText` | src/checker/version.rs:146-149 | the text of a one-digit release is its three digits joined by dots |
| `Version.ReleaseParses` | src/checker/version.rs:146-149 | a one-digit release text parses to that release |
| `Version.IsNewerReleaseSamples` | src/checker/version.rs:167-173 | `2.0.0`, `1.1.0` and `1.0.1` are newer than `1.0.0`, and `1.0.0` is not newer than `2.0.0` |
| `Version.IsNewerNumericSamples` | src/checker/version.rs:204-206 | `10.0.0` is newer than `9.0.0`: numbers compare by value |
| `Version.IsNewerMinorNumericSample` | src/checker/version.rs:204-207 | `1.10.0` is newer than `1.9.0` |
| `Version.IsNewerPrefixSamples` | src/checker/version.rs:176-180 | a leading `v` on either side makes no difference |
| `Version.IsNewerFormatted` | src/checker/version.rs:146-152 | on the texts of well-formed versions, newer is exactly SemVer precedence |
| `Version.ReleaseNewerThanPrerelease` | src/checker/version.rs:183-187 | a release is newer than each of its pre-releases, and never the other way round |
| `Version.IsNewerFallbackSamples` | src/checker/version.rs:190-201 | nothing is newer than `unknown`, `same` is not newer than itself, and `2024.01.15` is newer than `2024.01.14` by the text comparison |
| `Version.BadMinorRejected` | src/checker/version.rs:146-149 | three dot-separated parts whose middle one is no SemVer number never parse as a version |
| `Version.LeadingZeroRejected` | src/checker/version.rs:146-149 | the calendar versions of the tests, with a leading zero in the minor part, are no SemVer versions |
| `Version.CheckPackage` | src/checker/version.rs:38-59 | a record comes back exactly when the registry of an npm or Homebrew package reported a latest version that is newer, and it names the package, its version and that latest version |
| `Version.PresentAppend` | src/checker/version.rs:29-33 | the kept records of two lists are those of each list in turn |
| `Version.PresentMembers` | src/checker/version.rs:29-33 | a record is kept exactly when some check produced it |
| `Version.CheckOutdated` | src/checker/version.rs:26-36 | the loop checks each package in order and keeps the records |
| `Version.ChecksStep` | src/checker/version.rs:29-33 | one more package appends its record when its check produced one |
| `Version.OutdatedOfAppend` | src/checker/version.rs:26-36 | checking a concatenation checks each part in turn, so package order is kept |
| `Version.OutdatedOfMembers` | src/checker/version.rs:26-36 | a record is reported exactly when some package's check produces it |

## Left out

- HTTP: the OSV batch POST and the npm and Homebrew registry lookups are parameters (a function from a chunk's queries to an optional list of results, and one from a source and name to an optional latest version); request building, timeouts and status handling are not modelled.
- Subprocesses: `npm list --json`, `npm config get prefix` and `brew` are replaced by their outcome (the dependency list or a failure, and an optional prefix).
- Filesystem: directory walks, `read_dir` and `metadata` failures, `package.json` and `extensions.json` reads, and cache and configuration file reads and writes are parameters or a map of files; a failing cache write is not modelled.
- Configuration loading and saving, TOML and JSON text: only the structures are modelled, not their serialised text.
- Concurrency: the parallel scan is modelled as the list the sequential scan produces, which the source's `join_all` also keeps in scanner order; tokio scheduling is not modelled.
- Time: the clock, the watch loop's sleep and the progress bars are left out; the current time is a parameter of the cache, of watch mode and of `uuid_v4`.
- The Chrome, VS Code and Homebrew scanners and the Brave, Edge, Opera, Vivaldi, Arc and Chromium shims are not part of this model: they are field fallbacks inside filesystem and subprocess loops; their output is a parameter of the scan.
- Platform discovery (`Platform::current` and the browser profile paths) is not part of this model.
- Rendering: the table layout, ANSI colours, the HTML template text and the per-source summary are left out; each output format is modelled by the structure it renders (scan result, SARIF report, CycloneDX bill of materials).
- `print_upgrade_commands`, `show_package_info` and the `config` subcommand are not modelled: they only print, and the upgrade commands group by `HashMap` order.
- `HashMap` and `HashSet` iteration order: npm dependencies are taken in a given order, and the watch-mode key sets are modelled as sets.
- Unicode: `to_lowercase` and `is_alphanumeric` are their ASCII versions; `truncate` counts characters where the source counts bytes, which agree on ASCII text.
- Integer widths: `u32` risk and total scores, the `i32` health score and `u64` durations are unbounded integers; `hours * 3600` overflowing `u64` is not modelled.
- The `semver` crate is not part of this model: precedence is that of section 11 of Semantic Versioning 2.0.0, the build-metadata tie-break the crate adds is not modelled, and its parser is the strict grammar of that specification.
- `Osv.NumericBands`: the numeric CVSS branch classifies the exact real value of the decimal text, without rounding to `f32`, so a text within rounding distance of 9.0, 7.0, 4.0 or 0 may be classified differently than the source does.
- src/model/vulnerability.rs is not part of this model: `Severity::as_str` is assumed to give the lowercase name of each severity, which the SARIF message text and the CycloneDX rating use.
- The identifiers and display names of the five sources the data-model file lacks (Brave, Arc, Opera, Vivaldi, Chromium) are assumed; the stated properties cover only the six listed sources.
- `Wrappers` and `Str` model the Rust standard library (`Option`, `Result`, `starts_with`, `split`, `trim`, `parse::<u32>`); their members have no rows above.
