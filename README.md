# ghuser.io database crawler — a verified model

ghuser.io builds GitHub profiles from a database of JSON files: one file per user, one per
repository, one contribution list per user, the organizations, and a meta file. A set of Node
scripts keeps this database up to date from the GitHub API:

- `fetchUserDetailsAndContribs.js` refreshes each user's record. That covers the user's
  GitHub details, organizations, contributed repositories, popular forks and settings.
- `fetchRepos.js` does four things:
  - it discovers the repositories the users reference, and refreshes their metadata;
  - it deletes the repositories no user references any more;
  - for changed repositories, it deep-fetches contributors, pull request authors, languages
    and settings;
  - it copies renamed repositories under their new names.
- `fetchOrgs.js` classifies every owner the users belong to or contribute to as an
  organization or not, and deletes organization files nobody names.
- `calculateContribsAndMeta.js` rebuilds each user's contribution list:
  - a popularity, maturity, activity and total score per repository;
  - contributions of 0% to forks are dropped;
  - the organizations behind the contributions are collected;
  - the database totals go into the meta file.
- `findUsersToRemove.js` lists the users who have had a profile for over a month and have
  not starred the project. They are listed in an issue that asks them whether to keep their
  profile.
- `impl/githubV4.js` is the GraphQL adapter. It turns GitHub's GraphQL replies into the REST
  record shapes the scripts consume.

The model is one Dafny module per script plus a shared one:

- `Records` (records.dfy) holds the shared pieces:
  - database records are `map<string, Value>`, where `Value` is a JSON value with an extra
    `Time` constructor for ISO timestamps;
  - JavaScript truthiness and `Date.parse`;
  - the `indexOf`/`push` idiom, which is also a JavaScript `Set`'s insertion order;
  - `split('/')`;
  - paginated listings.
- `FetchRepos`, `FetchUserDetails`, `FetchOrgs`, `Scoring`, `FindUsersToRemove` and
  `GithubV4` model the scripts.

Every reply from GitHub or another service is a parameter of the model: a payload record or
an HTTP status. A listing is a function from page number to page. Each script's loops become
methods with loop invariants. Each method is proved equal to a function that states the
outcome, or is given postconditions that state the outcome directly. The lemmas beside them
prove what the scripts promise: no duplicates, lists that only grow, fields that are kept,
score ranges, and the page at which a scan stops.

## Model

| member | source | states |
|---|---|---|
| `Records.Pruned` | fetchOrgs.js:91-120 | after the deletions no listed field remains, every other field keeps its value, and no field is added |
| `Records.DeleteFields` | fetchUserDetailsAndContribs.js:116-124 | the field-by-field deletion loop yields the pruned record, whatever the order of the deletions |
| `Records.AppendNewSpec` | fetchUserDetailsAndContribs.js:160-164 | pushing the absent elements keeps the earlier list as a prefix, loses nothing, adds only what was absent, and keeps a list without duplicates duplicate-free |
| `Records.AppendNewSnoc` | fetchUserDetailsAndContribs.js:161-163 | one more element is appended exactly when `indexOf` does not find it |
| `Records.AppendNewConcat` | fetchRepos.js:354-359 | pushing two lists one after the other is pushing their concatenation |
| `Records.PushAbsent` | fetchUserDetailsAndContribs.js:160-164 | the `indexOf`/`push` loop computes the duplicate-free extension of the list |
| `Records.Split` | impl/githubV4.js:275 | `split('/')` yields at least one part and no part contains '/' |
| `Records.SplitJoin` | impl/githubV4.js:275 | joining the parts of `split('/')` with '/' gives the string back |
| `Records.OwnerOf` | calculateContribsAndMeta.js:199 | the owner of a full name is its text before the first '/', or the whole name when there is none |
| `Records.SplitOwnerName` | impl/githubV4.js:274-280 | an `owner/name` pair splits into exactly its owner and its name |
| `Records.ConcatGrows` | findUsersToRemove.js:68-77 | reading more pages only adds to what was read |
| `FetchRepos.DenylistSpares` | fetchRepos.js:186-199 | the pruning list never removes `owner`, `fetching_since` or `ghuser_insignificant` |
| `FetchRepos.ReferencedSpec` | fetchRepos.js:81-94 | a full name is referenced exactly when a user without `ghuser_deleted_because` lists it |
| `FetchRepos.AddReferences` | fetchRepos.js:83-93 | one user's entries: the call succeeds exactly when every entry is a non-empty string; then the names are added and each new name gets an empty file |
| `FetchRepos.Discover` | fetchRepos.js:66-94 | discovery succeeds exactly when no non-deleted user holds a non-string or empty entry; it yields the referenced set and a file for each name, and existing files are untouched |
| `FetchRepos.StampRepos` | fetchRepos.js:99-116 | every repository file gets the do-not-edit comment, and nothing else changes |
| `FetchRepos.AssignReply` | fetchRepos.js:182-183 | the reply's fields overwrite the record's and the owner becomes its login |
| `FetchRepos.Flagged` | fetchRepos.js:203 | `ghuser_insignificant` is set exactly when there are fewer than 1 star or the size is 0; nothing else changes |
| `FetchRepos.Refreshed` | fetchRepos.js:178-203 | after a payload: no denylisted field remains, `fetching_since` is now, the owner is the login, and the insignificance flag is right |
| `FetchRepos.PrunedFlagged` | fetchRepos.js:186-203 | pruning then flagging drops exactly the pruned fields and keeps every other field's value |
| `FetchRepos.RefreshedKeeps` | fetchRepos.js:182-199 | every other field comes from the reply when the reply has it, is kept from the stored record otherwise, and nothing else is added |
| `FetchRepos.FetchRepoOutcome` | fetchRepos.js:139-206 | see the four bullets after this table |
| `FetchRepos.FetchRepo` | fetchRepos.js:139-206 | the refresh of one repository has exactly the outcome above |
| `FetchRepos.FreshAfterRefresh` | fetchRepos.js:144-150 | a repository written by a refresh is not requested again within the next 12 hours, on any kind of run |
| `FetchRepos.FetchReferencedRepos` | fetchRepos.js:119-121 | every referenced repository is refreshed and no other changes; the first exception aborts the run |
| `FetchRepos.StripUnreferencedRepos` | fetchRepos.js:208-221 | the repositories left are exactly the stored ones that are referenced, unchanged |
| `FetchRepos.WithStats` | fetchRepos.js:260-267 | recording statistics forgets no contributor and records every entry that has an author |
| `FetchRepos.WithListed` | fetchRepos.js:287-289 | recording a listing page forgets no contributor and records every login of the page |
| `FetchRepos.WithStatsKeys` | fetchRepos.js:260-267 | the contributors after recording statistics are the earlier ones plus the entries' authors; every other contributor keeps its value |
| `FetchRepos.WithStatsLast` | fetchRepos.js:260-267 | an author named by several entries holds the total of the last one |
| `FetchRepos.WithListedKeys` | fetchRepos.js:287-289 | the contributors after a listing page are the earlier ones plus the page's logins; every other contributor keeps its value |
| `FetchRepos.WithListedLast` | fetchRepos.js:287-289 | a login listed twice holds the count of its last entry |
| `FetchRepos.ListedFrom` | fetchRepos.js:272-295 | reading the contributor listing forgets no contributor |
| `FetchRepos.FirstShortPageSpec` | fetchRepos.js:300-329 | the scan stops at the first page with fewer than 100 entries, and fails exactly when every page up to 10000 is full |
| `FetchRepos.TallyIsParticipations` | fetchRepos.js:304-319 | each commit counts once for its author and once for a different committer; an account is counted in exactly the commits it took part in |
| `FetchRepos.ContributorsGrow` | fetchRepos.js:223-336 | the contributors step never forgets a contributor, and leaves an unchanged repository's contributors as they were |
| `FetchRepos.ContributorsFailure` | fetchRepos.js:325-328 | the contributors step fails only for a changed repository whose commit pages are all full up to page 10000 |
| `FetchRepos.CommitCountsRecorded` | fetchRepos.js:297-332 | after the commit scan, each account in a scanned commit holds its commit count and every other contributor keeps its value |
| `FetchRepos.ScanCommits` | fetchRepos.js:298-329 | the page loop computes the commit counts of the pages up to the first short one, or throws at page 10000 |
| `FetchRepos.FetchStats` | fetchRepos.js:240-258 | statistics are asked for at most four times, and the first non-empty reply is used |
| `FetchRepos.RecordStats` | fetchRepos.js:261-266 | the statistics loop records each total under its author and skips entries without one |
| `FetchRepos.RecordListed` | fetchRepos.js:287-289 | the listing loop records each contributor's count |
| `FetchRepos.FetchListed` | fetchRepos.js:276-294 | reads at most five listing pages, stopping at a short page or a 403 |
| `FetchRepos.FetchRepoContributors` | fetchRepos.js:223-336 | the repository's `contributors` become the result of the statistics, listing and commit steps, chosen by how many contributors are known |
| `FetchRepos.AuthorsMembers` | fetchRepos.js:357-359 | the authors gathered from a page are exactly its pull requests' authors |
| `FetchRepos.PullsAuthorsSpec` | fetchRepos.js:347-381 | see the two bullets after this table |
| `FetchRepos.AuthorsConcat` | fetchRepos.js:354-359 | the authors of two runs of pages are the authors of each, in order |
| `FetchRepos.AuthorsOfNextPage` | fetchRepos.js:354-359 | reading one more page pushes that page's authors |
| `FetchRepos.ScanFromStops` | fetchRepos.js:354-376 | the scan adds the authors of every page up to its stop page, and gives up exactly when there is no stop page before 10000 |
| `FetchRepos.ScanPulls` | fetchRepos.js:354-376 | the page loop stops at a short page or at a page reaching back before the last full fetch, and adds each new author in order |
| `FetchRepos.FetchRepoPullRequests` | fetchRepos.js:338-382 | the pull request step's record is exactly the specified one |
| `FetchRepos.AnnotateLanguages` | fetchRepos.js:397-402 | each language's byte count is replaced by its bytes and its colour |
| `FetchRepos.FetchRepoLanguages` | fetchRepos.js:384-406 | an unchanged repository is left alone; otherwise `languages` becomes the annotated reply and nothing else changes |
| `FetchRepos.FetchRepoSettings` | fetchRepos.js:408-431 | an unchanged repository is left alone; otherwise the candidate settings files are tried in order |
| `FetchRepos.SettingsSpec` | fetchRepos.js:417-430 | the first settings file that exists becomes `settings`; with neither file nothing changes; only `settings` ever changes |
| `FetchRepos.SettingsFromFile` | fetchRepos.js:408-431 | the settings step fails exactly when looking for a settings file fails, and otherwise stores what the first existing file holds |
| `FetchRepos.MarkRepoAsFullyFetched` | fetchRepos.js:433-439 | `fetching_since` moves into `fetched_at`; a no-op without `fetching_since`; every other field is kept |
| `FetchRepos.StepKeeps` | fetchRepos.js:223-431 | a step that writes one fetched field keeps everything the later steps read |
| `FetchRepos.DetailsSteps` | fetchRepos.js:124-128 | after the first two steps of a changed repository, `contributors` and `pulls_authors` are what those steps computed and the other fields are kept |
| `FetchRepos.ParticipantsFails` | fetchRepos.js:124-128 | the first two steps of a changed repository fail exactly when the contributors step or the pull request step throws |
| `FetchRepos.PresentationFails` | fetchRepos.js:129-130 | the last two steps of a changed repository fail exactly when reading a settings file fails |
| `FetchRepos.PresentationValues` | fetchRepos.js:129-130 | the last two steps store the annotated languages and the first existing settings file, and keep everything else |
| `FetchRepos.DeepFetchedFails` | fetchRepos.js:124-133 | a deep fetch fails exactly when the repository changed and the commit scan, the pull request listing or reading a settings file throws |
| `FetchRepos.DeepFetchedValues` | fetchRepos.js:124-133 | a successful deep fetch of a changed repository stores the contributors, the authors, the annotated languages and the settings that each step computes, and completes the repository |
| `FetchRepos.DeepFetchedKeeps` | fetchRepos.js:124-133 | a successful deep fetch leaves a repository without `fetching_since` as it was and completes any other |
| `FetchRepos.FetchParticipants` | fetchRepos.js:127-128 | the loop computes the contributors step followed by the pull request step; the fields outside the deep fetch are kept, no contributor is forgotten, and the authors are a duplicate-free superset of the earlier ones |
| `FetchRepos.FetchPresentation` | fetchRepos.js:129-130 | computes the languages step followed by the settings step; an unchanged repository is left alone, and the contributors and authors are kept |
| `FetchRepos.FetchDetails` | fetchRepos.js:127-130 | computes the four deep-fetch steps in order; every field outside the deep fetch is kept |
| `FetchRepos.DeepFetch` | fetchRepos.js:124-133 | computes the four steps and the final mark; see the three bullets after this table |
| `FetchRepos.DeepFetchAll` | fetchRepos.js:124-133 | the loop succeeds exactly when every repository on GitHub that is significant can be deep-fetched, and then yields each such repository deep-fetched and every other one untouched; exactly those being fetched are completed |
| `FetchRepos.DeepResultsKeep` | fetchRepos.js:124-133 | after every wanted repository is deep-fetched, those being fetched are completed and the others are as they were |
| `FetchRepos.StrippedRefreshed` | fetchRepos.js:99-121 | refreshing the stamped files and then dropping the unreferenced ones leaves exactly the referenced repositories, each refreshed from its stamped file |
| `FetchRepos.RefreshReferenced` | fetchRepos.js:62-121 | discovery, stamping, refreshing and stripping succeed exactly when discovery and every refresh do, and yield the specified refreshed repositories |
| `FetchRepos.CreateRenamedRepos` | fetchRepos.js:441-467 | see the four bullets after this table |
| `FetchRepos.FetchRepos` | fetchRepos.js:49-137 | a run succeeds exactly when discovery, every refresh, every deep fetch and the renaming succeed; each referenced repository then holds its refreshed and deep-fetched record, files are added only as copies under a current full name, and every name resolves |
| `GithubV4.Assign` | impl/githubV4.js:66-99 | assigning a field stores the value, stores nothing for `undefined`, and leaves other fields alone |
| `GithubV4.CheckResponse` | impl/githubV4.js:311-324 | a non-object is 500; no errors is null; a first error of type `NOT_FOUND` is 404; any other error is 500; reading the errors can throw |
| `GithubV4.BuildCommonRepoVariables` | impl/githubV4.js:273-293 | the owner is the text before the first '/' and the name the text after it, present exactly when there is a '/'; a cursor is added exactly after page 1 when the page is a number, and the call fails exactly when that cursor is missing |
| `GithubV4.VariablesNameRepo` | impl/githubV4.js:273-280 | for an `owner/name` full name the owner and name variables join back to it |
| `GithubV4.InsertCursor` | impl/githubV4.js:297-302 | with both arrays non-empty, the first result gets the last edge's cursor; nothing else changes, and the call is a no-op otherwise |
| `GithubV4.ShapedSpec` | impl/githubV4.js:155-177 | shaping succeeds exactly when every edge can be shaped, and then yields one record per edge, in order |
| `GithubV4.ShapeAll` | impl/githubV4.js:214-221 | the push loop computes the shaped edges, failing at the first bad edge |
| `GithubV4.ListEdges` | impl/githubV4.js:153-179 | one record per edge, in order, the first carrying the last edge's cursor |
| `GithubV4.CommitRecord` | impl/githubV4.js:160-176 | a commit record carries the sha and the author's and committer's logins |
| `GithubV4.ShapedCommitCredits` | impl/githubV4.js:156-176 | a shaped commit credits exactly the GitHub users behind its author and committer, and carries the sha when the node has one |
| `GithubV4.CreditedLogin` | impl/githubV4.js:170-175 | the login stored for a role is the login of that role's GitHub user |
| `GithubV4.Commits` | impl/githubV4.js:140-182 | a non-object reply is passed through unchanged; otherwise the result is one commit record per edge with the cursor inserted |
| `GithubV4.ShapedPullAuthor` | impl/githubV4.js:216-220 | a pull request record names its author's login, or `null` for a missing author |
| `GithubV4.PullRequests` | impl/githubV4.js:201-226 | a non-object reply is passed through unchanged; otherwise the result is one pull request record per edge with the cursor inserted |
| `GithubV4.LastEntryWins` | impl/githubV4.js:258-260 | a language written by several edges keeps the last size; a name no edge writes is absent |
| `GithubV4.RepoLanguages` | impl/githubV4.js:242-263 | the reply's error code is returned as it is; otherwise each edge's language name maps to its size |
| `GithubV4.FillLanguages` | impl/githubV4.js:256-260 | the loop writes every edge's entry in order, failing at the first unreadable edge |
| `GithubV4.Read2` | impl/githubV4.js:70 | reading a two-step path throws exactly when the object or its first property is `undefined` or `null`, and otherwise yields the value at that path |
| `GithubV4.Read1` | impl/githubV4.js:67 | reading a property throws exactly when the object is `undefined` or `null`, and otherwise yields its value |
| `GithubV4.Compact` | impl/githubV4.js:66-88 | each field holds its value, and fields assigned `undefined` are absent |
| `GithubV4.ReadNameFields` | impl/githubV4.js:64-73 | succeeds exactly when the node and its owner can be read; `name`, `full_name` (the `nameWithOwner`), `private`, `owner` (its login), `html_url`, `description` and `fork` are copied from the node |
| `GithubV4.ReadNames` | impl/githubV4.js:64-76 | succeeds exactly when the node and its owner can be read; the naming fields plus `url`, `languages_url` and `pulls_url` (ending in `{/number}`), built from `nameWithOwner` |
| `GithubV4.ReadLicense` | impl/githubV4.js:90-97 | a license is stored exactly when the license information is truthy; it has only the fields `key`, `name`, `spdx_id` (from `spdxId`), `url` and `node_id` (from `id`), each copied from the node |
| `GithubV4.ReadDates` | impl/githubV4.js:78-85 | succeeds exactly when the three dates can be reformatted and the stargazers read; the reformatted dates, with the push date under `pusher_at`, and the copied counters |
| `GithubV4.ReadExtras` | impl/githubV4.js:86-103 | succeeds exactly when the primary language, the default branch and the owner can be read; language, mirror, archive flag and default branch; `license` with its copied fields exactly when the license information is truthy; an empty `organization` only for an organization owner |
| `GithubV4.ExtrasAssembled` | impl/githubV4.js:86-103 | the remaining fields assembled from the values read are exactly the specified extras, with no other field |
| `GithubV4.RepoGroupsMerge` | impl/githubV4.js:66-105 | the groups of fields keep their values in the assembled record |
| `GithubV4.Repo` | impl/githubV4.js:51-106 | the reply's error code is returned as it is; a record comes back exactly when the reply has no error and every property the adapter reads can be read; it has every field of the REST shape, as above, and no other |
| `FetchOrgs.ActiveSpec` | fetchOrgs.js:28-36 | exactly the users without `ghuser_deleted_because` and `removed_from_github` are considered |
| `FetchOrgs.LoadUsers` | fetchOrgs.js:28-36 | the loop keeps the considered users, in directory order |
| `FetchOrgs.Logins` | fetchOrgs.js:40 | spreading a user's organizations succeeds exactly when every entry is a string, and keeps them in order |
| `FetchOrgs.OwnersOf` | fetchOrgs.js:48 | each contributed repository's owner is the text before its first '/' |
| `FetchOrgs.UnionSpec` | fetchOrgs.js:38-50 | the owner set holds each owner once, and exactly the owners of some user |
| `FetchOrgs.UnionFails` | fetchOrgs.js:38-50 | building the owner set succeeds exactly when every user's owners can be read |
| `FetchOrgs.CollectOwners` | fetchOrgs.js:38-50 | the loop builds the owner set user by user, in `Set` insertion order |
| `FetchOrgs.UnionStops` | fetchOrgs.js:38-50 | once a user's owners cannot be read, later users do not change the outcome |
| `FetchOrgs.FetchedOrgFields` | fetchOrgs.js:89-120 | a fetched organization keeps no listed field; every other field comes from the reply, or else from the stored record |
| `FetchOrgs.ClassifyGrows` | fetchOrgs.js:59-122 | `non_orgs` grows only at its end, by the owner and only when absent; only the owner's file may change |
| `FetchOrgs.ClassifyAllGrows` | fetchOrgs.js:57-124 | over all owners, `non_orgs` keeps its earlier entries as a prefix, gains no duplicate, and gains only owners; other organization files are unchanged |
| `FetchOrgs.AvatarKept` | fetchOrgs.js:62 | `avatar_url`, which marks a known organization, is not among the pruned fields |
| `FetchOrgs.ReclassifyIsNoOp` | fetchOrgs.js:57-86 | a second turn for a settled owner changes nothing and asks GitHub nothing |
| `FetchOrgs.FindUser` | fetchOrgs.js:70-77 | the search finds the owner exactly when it is some user's login, compared case-sensitively |
| `FetchOrgs.FetchOwner` | fetchOrgs.js:59-123 | see the bullets after this table |
| `FetchOrgs.FetchOwners` | fetchOrgs.js:57-124 | every owner's turn, in order; the first failing turn stops the loop |
| `FetchOrgs.ClassifyAllStops` | fetchOrgs.js:57-124 | a failing turn stops the crawl: later owners are not looked at |
| `FetchOrgs.ClassifyFails` | fetchOrgs.js:59-123 | a turn fails exactly when the owner is unsettled, is no user's login, and GitHub answers with an error other than 404 |
| `FetchOrgs.ClassifyAllSucceeds` | fetchOrgs.js:57-124 | when GitHub answers every owner with a record or 404, every turn goes through |
| `FetchOrgs.OrgsRunSucceeds` | fetchOrgs.js:20-55 | a run goes through when the `non_orgs` file and every considered user can be read and GitHub answers every owner with a record or 404 |
| `FetchOrgs.StripUnreferencedOrgs` | fetchOrgs.js:126-138 | the organization files left are exactly those named in either owner set, unchanged |
| `FetchOrgs.FetchOrgs` | fetchOrgs.js:20-55 | computes the specified run: `non_orgs` only grows and stays duplicate-free; the rest of its file is unchanged; every kept organization is named by a considered user |
| `FetchOrgs.OwnersNamed` | fetchOrgs.js:126-138 | every organization file kept is named by a considered user's organizations or contributions |
| `FetchUserDetails.FetchDetails` | fetchUserDetailsAndContribs.js:101-127 | a 304 changes nothing; a payload overwrites the record's fields and then drops the listed ones; any other status fails |
| `FetchUserDetails.OrgLogins` | fetchUserDetailsAndContribs.js:136-138 | the logins of the listed organizations, in order; a `null` entry throws |
| `FetchUserDetails.FetchOrgs` | fetchUserDetailsAndContribs.js:129-141 | `organizations` is replaced by the listed logins, in order, and nothing else changes |
| `FetchUserDetails.FetchContribs` | fetchUserDetailsAndContribs.js:143-168 | see the two bullets after this table |
| `FetchUserDetails.ForkNames` | fetchUserDetailsAndContribs.js:181-186 | collecting fork names fails exactly on a `null` entry |
| `FetchUserDetails.ForkNamesMembers` | fetchUserDetailsAndContribs.js:182-184 | the names collected are exactly the full names of the forks with at least one star |
| `FetchUserDetails.ForkNamesConcat` | fetchUserDetailsAndContribs.js:177-186 | the names of two runs of repositories are the names of each, in order |
| `FetchUserDetails.ForkStopSpec` | fetchUserDetailsAndContribs.js:177-191 | at most five pages are read, and reading stops at the first short page |
| `FetchUserDetails.ForkedSpec` | fetchUserDetailsAndContribs.js:170-195 | the forks are added after the known repositories, each only once, and nothing else in the user's record changes |
| `FetchUserDetails.AddForks` | fetchUserDetailsAndContribs.js:181-186 | one page's popular forks are pushed when absent; a `null` entry throws |
| `FetchUserDetails.FetchPopularForks` | fetchUserDetailsAndContribs.js:170-195 | the page loop computes the specified list of popular forks |
| `FetchUserDetails.ForkedAt` | fetchUserDetailsAndContribs.js:177-191 | the pages read so far decide the scan: a failure there fails it, and at the last page its result is what was added |
| `FetchUserDetails.ForksAddedIsConcat` | fetchUserDetailsAndContribs.js:177-191 | adding the forks page by page is adding those of the concatenated pages, and fails exactly when a page holds `null` |
| `FetchUserDetails.FetchSettings` | fetchUserDetailsAndContribs.js:197-210 | a 404 changes nothing; a payload replaces `settings` and nothing else; any other status fails |
| `FetchUserDetails.RefreshedFails` | fetchUserDetailsAndContribs.js:81-210 | the refresh of a live user fails exactly when the details reply is neither a payload nor 304, an organization entry is `null`, the contribution list cannot be read, a fork page holds `null`, or the settings reply is an error other than 404 |
| `FetchUserDetails.RefreshedOrgs` | fetchUserDetailsAndContribs.js:129-141 | the refreshed user holds the listed organizations, in order |
| `FetchUserDetails.RefreshedContribs` | fetchUserDetailsAndContribs.js:143-195 | the refreshed contribution list is the earlier one, then the new repositories, then the popular forks, each added once, and is dated now |
| `FetchUserDetails.RefreshedKeeps` | fetchUserDetailsAndContribs.js:81-210 | a settings payload is stored, and every field other than `organizations`, `contribs` and `settings` is the detailed record's |
| `FetchUserDetails.FetchUserDetailsAndContribs` | fetchUserDetailsAndContribs.js:81-99 | computes the specified refresh: a record without `login` throws, a deleted user is left unchanged, and otherwise the details, organizations, contributions, forks and settings steps run in order |
| `Scoring.LogInput` | calculateContribsAndMeta.js:162-164 | the clamped input is NaN exactly when the value is, and otherwise lies in [1, 100000] |
| `Scoring.LogInputEnds` | calculateContribsAndMeta.js:162-164 | the input is 1 at `valFor0` and 100000 at `valFor5` |
| `Scoring.ScoreRange` | calculateContribsAndMeta.js:152-170 | ascending and descending scores are NaN only for a NaN value, and otherwise lie in [0, 5] |
| `Scoring.ScaleEnds` | calculateContribsAndMeta.js:117-133 | popularity(1) = 0 and popularity(10000) = 5; maturity(40) = 0 and maturity(10000) = 5; activity(30 days) = 5 and activity(3650 days) = 0 |
| `Scoring.TotalScoreRange` | calculateContribsAndMeta.js:142-145 | with every part in range, the total score lies in [0, 95], which is `max_total_score` |
| `Scoring.TotalRemove` | calculateContribsAndMeta.js:120-123 | the commit total does not depend on the order the contributors are visited |
| `Scoring.TotalAtLeast` | calculateContribsAndMeta.js:120-126 | the total of non-negative counts is at least each count, so the user's share is at most 100% |
| `Scoring.TotalNonNegative` | calculateContribsAndMeta.js:120-123 | the total of non-negative counts is non-negative |
| `Scoring.Percentage` | calculateContribsAndMeta.js:125-126 | the user's share lies in [0, 100] |
| `Scoring.PercentAtMost` | calculateContribsAndMeta.js:125-126 | a share of a total, in percent, lies in [0, 100] |
| `Scoring.SumContributors` | calculateContribsAndMeta.js:120-123 | the loop adds up every contributor's commit count |
| `Scoring.ScoreOfRange` | calculateContribsAndMeta.js:112-145 | every part of a score is in range; maturity is never NaN; the total is NaN exactly when popularity or activity is, and is otherwise at most 95 |
| `Scoring.CalculateScore` | calculateContribsAndMeta.js:112-145 | the score is computed as specified |
| `Scoring.Target` | calculateContribsAndMeta.js:103-109 | an entry is scored only for a repository that exists, has a full name, is on GitHub and is significant |
| `Scoring.CountScored` | calculateContribsAndMeta.js:101-110 | the count of scored entries is at most the length of the list |
| `Scoring.ScoresKeys` | calculateContribsAndMeta.js:102-113 | a full name has a score exactly when some entry of the list leads to a scored repository with that name |
| `Scoring.ScoresValues` | calculateContribsAndMeta.js:112-145 | each score is the score of a repository with that full name |
| `Scoring.CalculateScores` | calculateContribsAndMeta.js:96-150 | the scores of the user's list and their count; the call fails when the list is missing |
| `Scoring.StripInsignificantContribs` | calculateContribsAndMeta.js:173-188 | exactly the contributions of 0% to forks are deleted, and the others are unchanged |
| `Scoring.GetContribsOwners` | calculateContribsAndMeta.js:196-207 | each owner appears once: the owner in an entry's key, or in its current full name |
| `Scoring.KnownOrgs` | calculateContribsAndMeta.js:191-192 | exactly the owners with a known organization login are kept, without duplicates; the call fails when the organizations table is missing |
| `Scoring.StripUnreferencedContribs` | calculateContribsAndMeta.js:79-92 | the contribution lists left are exactly those of users, unchanged |
| `Scoring.ProcessUser` | calculateContribsAndMeta.js:65-69 | succeeds exactly when the user's list can be read and, if some score is kept, the organizations table exists; the list then holds the kept scores and the known organizations, and the count is the number of scored entries |
| `Scoring.ProcessUsers` | calculateContribsAndMeta.js:64-69 | succeeds exactly when every user can be processed; every user's list is then written as specified, and the counts add up to the total |
| `Scoring.CalculateContribsAndMeta` | calculateContribsAndMeta.js:19-77 | succeeds exactly when every non-deleted user can be processed; each such user then gets exactly one list, `num_users` counts them and `num_contribs` is the sum of their counts |
| `FindUsersToRemove.CandidatesSpec` | findUsersToRemove.js:30-39 | a user is a candidate exactly when not deleted, not kept, not removed, and created more than 30 days ago |
| `FindUsersToRemove.LoadCandidates` | findUsersToRemove.js:30-39 | the loop keeps the candidates, in directory order |
| `FindUsersToRemove.StarLogins` | findUsersToRemove.js:72 | a page's logins, in order; a `null` stargazer throws |
| `FindUsersToRemove.StarLoginsConcat` | findUsersToRemove.js:72 | the logins of two pages are the logins of each, in order |
| `FindUsersToRemove.FetchStargazers` | findUsersToRemove.js:63-81 | the logins of every page up to the first short page, in order |
| `FindUsersToRemove.ToRemoveSpec` | findUsersToRemove.js:42 | a login is listed exactly when it is a candidate's and not a stargazer's |
| `FindUsersToRemove.AllStarred` | findUsersToRemove.js:42-44 | when every candidate has starred the project, nobody is listed |
| `FindUsersToRemove.Issue` | findUsersToRemove.js:44-59 | nothing is printed for an empty list; otherwise the header, one line per user in order, and the footer |
| `FindUsersToRemove.Lines` | findUsersToRemove.js:54-56 | one line per user, in order |
| `FindUsersToRemove.FindUsersToRemove` | findUsersToRemove.js:20-61 | the printed issue lists the candidates who have not starred the project; the run fails exactly when a stargazer is `null` |

Some rows state too much for the table. Their full contracts:

- `FetchRepos.FetchRepoOutcome` (fetchRepos.js:139-206):
  - a repository that is still fresh or was removed is skipped;
  - 304 sets only `fetched_at`;
  - 404 and 451 set only `removed_from_github`;
  - a payload yields the refreshed record, or throws when the owner is `null`, and any other status throws.
- `FetchRepos.PullsAuthorsSpec` (fetchRepos.js:347-381):
  - the authors hold no duplicate and keep the earlier ones first, in order;
  - they include the author of every pull request read, and nothing but `pulls_authors` changes.
- `FetchRepos.DeepFetch` (fetchRepos.js:124-133):
  - without `fetching_since` the file is unchanged;
  - otherwise the fetch is completed: `fetching_since` moves into `fetched_at` and nothing outside the fetched fields changes;
  - a failure happens only for a changed repository;
  - the result is exactly the outcome of the four steps followed by the final mark (`DeepFetched`), whose failures and stored values `DeepFetchedFails` and `DeepFetchedValues` state.
- `FetchRepos.CreateRenamedRepos` (fetchRepos.js:441-467):
  - the run throws exactly when a repository on GitHub lacks a full name;
  - it never overwrites an existing file, and each new file is a copy under a current full name;
  - afterwards every name resolves, so a second run adds nothing.
- `FetchOrgs.FetchOwner` (fetchOrgs.js:59-123), in order:
  - a known organization or an owner already in `non_orgs` is left alone;
  - a user's login or a 404 is appended to `non_orgs`;
  - otherwise the fetched record is stored.
- `FetchUserDetails.FetchContribs` (fetchUserDetailsAndContribs.js:143-168):
  - the new repositories are appended after the known ones, each only once, keeping positions;
  - the list is dated now, and a missing list starts empty.

## Left out

- File and network I/O is absent: reading directories, writing and deleting files, and the HTTP requests. Each reply is a parameter, and a write is the returned record.
- The rate-limit polling, retries and sleeps of impl/github.js are absent. So are spinners, console output other than the issue text, and CLI parsing. The model keeps only the number of statistics retries.
- `Math.log10` is a parameter that satisfies `Log10Facts` (log10(1) = 0, log10(100000) = 5, monotone). Floating-point rounding is not modelled: scores are real numbers, and NaN is `None`.
- Three library calls are parameters: `coerceDate`'s ISO formatting, the `github-colors` lookup, and the text a template string makes of a non-string value.
- `githubContribs.fetch` and its date helpers are absent. The repositories it returns are a parameter, and the 7-day `since` window is not modelled.
- Each run reads one clock value, `now`. The fresh `new Date` that each script function takes is not modelled.
- The order of JavaScript object keys is not modelled. Maps are visited in an arbitrary order. `Scoring.GetContribsOwners` therefore fixes which owners appear, but not their order.
- A run that throws returns a failure. The files the real run wrote before the exception are not kept.
- `Scoring.CountOf`: a non-positive or non-numeric contributor count is read as 0, and counts are whole numbers. This model does not cover repository files that store anything else.
- `Scoring.Percentage`: the user's login must be a string for a count to be found.
- `Scoring.FullNameOf`: a truthy full name that is not a string is treated as missing.
- `Scoring.CalculateScores`: list entries that are not strings are skipped.
- `Scoring.ListedRepos`: a contribution list whose `repos` is not an array fails. The script's `for…of` would iterate a string's characters.
- `FetchUserDetails.Contribs`: an existing contribution list without an array `repos` fails, even when no new repository arrives. The script then reaches neither `indexOf` nor `push`, and only dates the list.
- `FetchRepos.Discover`: every entry must be a non-empty string. The script adds a truthy non-string entry (a number, an object) to its set, and iterates `for … in` over a `contribs.repos` that is not an array (the characters of a string, the keys of an object); the model treats a non-string entry as unusable and reads a non-list `repos` as empty. A referenced name that is not of the form `owner/name` (such as `abc` or `a/b/c`) is also kept like any other: the script writes its placeholder file, but its two-level scan of the repository directory (fetchRepos.js:100-116) never finds that file, so the refresh at fetchRepos.js:142 opens a file with no path. The model keys files by full name and refreshes, deep-fetches and keeps such a repository.
- `Scoring.NumberOf`: a numeric string such as `"12"` is read as NaN, although JavaScript arithmetic would convert it to 12. GitHub sends the counts the scores use as numbers.
- Some listings are modelled as replies that cannot fail: the contributor statistics, commit pages, pull request pages and languages of a repository; the contributor listing except for its 403; a user's organizations and repository pages; and the stargazer pages. A real request that fails with another HTTP error throws and aborts the run, which the model does not capture.
- `FetchRepos.PullsStep`: a pull request is always modelled with an author login. A pull request whose `user` is `null` would throw a `TypeError` at fetchRepos.js:358; the model cannot express it.
- `FetchRepos.FullName`: a truthy `full_name` that is not a string counts as missing, so renaming fails on it. The script throws only on a falsy one (fetchRepos.js:453).
- `FetchRepos.ContributorsOf`: a truthy `contributors` that is not an object is read as an empty table. The script keeps the value it found (fetchRepos.js:224) and throws later, when it writes a property into it.
- `FetchRepos.FetchRepo`: only a numeric `stargazers_count` (or `null`/boolean) is compared with 1. A string count is taken as significant.
- `FetchOrgs.NonOrgsOf`: a `non_orgs` that is present but not an array fails the run at once. The script fails only when it first calls `indexOf` or `push` on it (fetchOrgs.js:26, 66, 73). The model also writes `non_orgs` back on every run, including a run that pushes nothing.
- `FetchOrgs.Logins`: a user's organizations must be a list of strings. A non-string entry is an error, although the script would put it into the owner set. An `organizations` string is also an error, although the script would spread it character by character.
- `FindUsersToRemove.ToRemove`: logins are compared with structural equality, which is JavaScript's strict equality on strings and numbers.
- `FindUsersToRemove.FetchStargazers`: the listing must end with a short page, since the script has no page limit and the model must terminate.
- `FetchUserDetails.FetchPopularForks` requires the contribution list that `fetchContribs` has just created. A fork counts as popular only when its `stargazers_count` is a number of at least 1; JavaScript's `>= 1` would also accept a numeric string such as `"5"` or `true`.
- The popularity scale uses `valFor5 = 10000`, as the code does. The comment's example table (10 stars give popularity 1) only holds for `valFor5 = 100000`.
- `fetchOrgs.js` treats the organizations path as a directory of files, while `calculateContribsAndMeta.js` reads it as one file with an `orgs` table. Each script is modelled as written.
- `impl/githubV4.js` stores the push date under `pusher_at`, not `pushed_at`. The model keeps that.
- NaN scores are kept as `None`. Their serialization as `null` is not modelled.
- Every score also stores the formula text and `max_total_score`, which are constants; the model does not copy them into each score.
- impl/githubV3.js, impl/db.js, impl/data.js, addUser.js, splitOrgs.js, printDataStats.js and fetchUsers.py are not part of this model.
