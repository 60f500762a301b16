# M-Lab scraper, modelled in Dafny

The scraper copies measurement data from one M-Lab node at a time. It does four things:

- lists the node's files over rsync;
- downloads the files of days after the last archived day;
- packs each finished day into numbered `.tgz` tarfiles of bounded uncompressed size;
- records its progress in one datastore entity per rsync endpoint.

A separate fleet-status process reads all those entities and serves them as an HTML table.

This project models the logic of both programs and proves properties of it:

- **Listing.** Parsing `rsync --list-only` output (`list_rsync_files`).
- **Filtering.** Keeping only the files of newer days (`remove_older_files`).
- **Downloading.** Cutting the download into rsync calls of at most 1000 NUL-separated names (`download_files`).
- **Host names.** Checking an M-Lab host name and taking it apart (`assert_mlab_hostname`, `node_and_site`).
- **Archive date.** Reading and writing the `x2016-01-28` archive-date text (`xdate_to_date_or_die`, `update_last_archived_date`).
- **Status entity.** The `SyncStatus` class over an in-memory datastore.
- **Tarfiles.** Packing the files of a day into named tarfiles (`create_temporary_tarfiles`).
- **Fleet records.** Building the fleet status records (`get_fleet_data`).
- **Status page.** The page the status server writes (`WebHandler.do_GET`).

Modules:

- **Basic values and text**
  - `Wrappers`: `Option` and `Result`.
  - `Seqs`: flattening a sequence of slices.
  - `Strings`: Python's `split`, `join`, `count` and `isdigit`.
  - `Decimal`: `%d`, `%0Nd` and `int(s, 10)`.
  - `Dates`: `datetime.date` validity and order.
  - `DateText`: the three textual forms of a day.
- **The scraper**
  - `RsyncListing`
  - `FileFilter`
  - `Download`
  - `Hostname`
  - `Tarfiles`: the packing rules a day's tarfiles follow.
  - `TarfileGenerator`: the packing loop, proved to follow them.
  - `SyncStatus`
- **The status server**
  - `Values`: a field is text or an integer.
  - `Fleet`
  - `Ordering`: Python 2's `<` on values and lists.
  - `Sorting`: `sorted`, specified.
  - `StatusPage`

Where the behaviour of the code departs from its documentation, the model follows the code. For example, Python's `$` in the host-name regular expression also matches before a final newline, so the model accepts one trailing `\n`. Also, `datetime.date` raises `OverflowError`, not `ValueError`, on a number that does not fit in a C `int`. Neither `remove_older_files` nor `xdate_to_date_or_die` catches it, and the model keeps that outcome apart: the generator stops at such a name, and the parse fails with `DateOverflow`.

## Model

| member | source | states |
|---|---|---|
| RsyncListing.ListRsyncFiles | scraper.py:100-111 | the names kept are those of `Names`: in listing order, one per line that is not a directory and splits into exactly five chunks; never more names than lines |
| RsyncListing.SplitWhitespace | scraper.py:104 | `split(None, 4)` gives at most five non-empty chunks, and none exactly for a blank string |
| RsyncListing.SplitJoinFields | scraper.py:104 | whitespace-free fields joined by runs of whitespace, followed by a last field, split back into exactly those fields, and the last field keeps its inner spaces |
| RsyncListing.ListedName | scraper.py:104-110 | a line whose first non-blank character is `d` gives no name; a name kept is non-empty, starts with a non-space and is the tail of its line |
| RsyncListing.SplitWhitespaceLast | scraper.py:104 | when `split(None, 4)` makes all four cuts, the fifth chunk is the rest of the line from its first non-space on |
| RsyncListing.ListingLineName | scraper.py:104-110 | a five-column listing line yields its name, spaces included, unless its permissions start with `d` |
| RsyncListing.SplitJoinFieldsSpare | scraper.py:104 | with cuts to spare, `split(None, n)` undoes joining whitespace-free fields by runs of whitespace |
| RsyncListing.ShortLineSkipped | scraper.py:104-109 | a line of two to four chunks yields no name |
| RsyncListing.OneChunkLineSkipped | scraper.py:104-109 | a line of a single chunk yields no name |
| FileFilter.PathDate | scraper.py:128-147 | a file name with fewer than three `/`, or one on which `datetime.date` overflows, has no day; any day found is a valid calendar date, and its year, month and day are the name's first three fields read as decimal numbers |
| FileFilter.RemoveOlderFiles | scraper.py:117-147 | the generator raises if and only if some name has digit fields too large for a C `int`. It raises at the first such name, having yielded `Newer` of the names before it. Otherwise the names yielded are exactly `Newer(cutoff, files)`, in order |
| FileFilter.NewerIsSubsequence | scraper.py:127-144 | the yielded names are a subsequence of the listing |
| FileFilter.NewerMembers | scraper.py:127-144 | of the names the generator looks at (all of a listing it does not raise on, or those before the name it raises on), a name is yielded if and only if it is listed and names a valid day after the cutoff |
| FileFilter.PathFields | scraper.py:128-142 | for a name made of three `/`-free fields and a rest, the date arguments are the three fields read as decimal numbers when all are digits, and there are none otherwise |
| FileFilter.PathDateOfNumbers | scraper.py:128-147 | for a name `y/m/d/<rest>` of any three numbers, the day found is `datetime.date(y, m, d)`, none where that raises `ValueError`; the generator raises on the name if and only if a number does not fit in a C `int` |
| FileFilter.NonDigitFieldSkipped | scraper.py:133-137 | a name whose year, month or day field is not all digits is skipped: no day, no overflow, not yielded |
| FileFilter.DayDirFileIsNewer | scraper.py:128-144 | a file under `YYYY/MM/DD/` is read back as that day, and is yielded if and only if the day is after the cutoff |
| FileFilter.NoDateDirectorySkipped | scraper_test.py:104 | `monkey/06/.gz` has no day |
| FileFilter.BadYearSkipped | scraper_test.py:117 | a name under `BADYEAR/10/26/` has no day |
| FileFilter.ImpossibleDaySkipped | scraper_test.py:122 | a name under `2016/10/35/` has no day |
| FileFilter.OverflowExample | scraper.py:139-147 | a name whose year is 2147483648 makes the generator raise |
| Download.DownloadBatches | scraper.py:152-179 | no rsync call for no files; otherwise consecutive slices that together are the list, each of 1 to 1000 names, all but the last full, ceil(n/1000) of them, each passed as its names joined by NUL; when no name holds a NUL, each text splits back at its NULs into exactly the names of its call |
| Hostname.MatchParts | scraper.py:67-69 | every name the pattern accepts is a prefix (empty, or ending in `.` with no newline), `mlab[1-9]`, `.`, a site, `.measurement-lab.org`, and possibly one final newline |
| Hostname.NewlineEndedName | scraper.py:67-69 | conversely, every such name with one final newline is accepted unchanged, and `node_and_site` gives back its node and site |
| Hostname.AssertMlabHostname | scraper.py:53-70 | a host name that is accepted is returned unchanged |
| Hostname.NodeAndSite | scraper.py:299-310 | fails, with the host name, if and only if the name does not match the M-Lab pattern |
| Hostname.NodeAndSiteValid | scraper.py:299-310 | whatever `node_and_site` returns is a node `mlab[1-9]` and a site `[a-z]{3}[0-9][0-9t]` |
| Hostname.LabelsOfMatch | scraper.py:308-310 | for every matching host name, the 4th-last and 3rd-last `.` labels are the node and site that the matched text ends with |
| Hostname.NodeAndSiteOfName | scraper.py:53-70 | every prefix, node and site the pattern allows gives a host name that is accepted, and whose node and site come back unchanged |
| Hostname.PrefixedExample | scraper_test.py:239-242 | `ndt.iupui.mlab1.atl02.measurement-lab.org` gives `('mlab1', 'atl02')` |
| Hostname.UnprefixedExample | scraper_test.py:244-247 | `mlab1.atl02.measurement-lab.org` gives `('mlab1', 'atl02')` |
| Hostname.TestingSiteExample | scraper_test.py:480-484 | a site ending in `t` is accepted |
| Hostname.WrongDomainRejected | scraper_test.py:235-237 | a host name under `.com` is refused |
| Hostname.TwoDigitNodeRejected | scraper_test.py:485-490 | `mlab01` is refused |
| Hostname.LongSiteRejected | scraper_test.py:485-490 | a four-letter site is refused |
| Hostname.ShortNameRejected | scraper_test.py:485-490 | `example.com` is refused |
| DateText.ParseXDate | scraper.py:478-487 | any date returned is valid; every refusal keeps the text; text without a leading `x` or without exactly two `-` is refused as a bad date string |
| DateText.XDateOfFields | scraper.py:478-487 | for `x` and three dash-free fields joined by dashes: a bad date string unless all three fields are digits. Otherwise it is the day `datetime.date` makes of their values when that is a real day; an overflow when a value does not fit in a C `int`; and a bad date string when they name no day |
| DateText.XDateParts | scraper.py:481-482 | such a text starts with `x`, holds exactly two `-`, and splits after the `x` into its three fields |
| DateText.XDateOfNumbers | scraper.py:478-487 | `x` and three numbers written with `%d` parse to that day if and only if it is a real day; a refusal is an overflow exactly when a number does not fit in a C `int` |
| DateText.NonNumericYearRefused | scraper.py:483 | `x20a6-01-28` is refused as a bad date string |
| DateText.ThirtiethOfFebruaryRefused | scraper.py:484-485 | the 30th of February of any year is refused, as a bad date string when the year fits in a C `int` |
| DateText.DateAndTimeRefused | scraper.py:481 | a cell followed by `-` and a time, as in the last-collection text `x%Y-%m-%d-%H:%M`, is refused as a bad date string |
| DateText.XDateOverflowExample | scraper.py:484-485 | a year of 2147483648 escapes as an overflow, not a bad date string |
| DateText.XDateFields | scraper.py:590-592 | the text `update_last_archived_date` writes starts with `x`, holds exactly two `-`, and splits into the year, month and day fields |
| DateText.XDateRoundTrip | scraper.py:478-487 | the text `update_last_archived_date` writes is parsed back to the same day |
| Dates.MakeDate | scraper.py:143-147 | `datetime.date(y, m, d)` succeeds if and only if the date exists, and then holds y, m, d |
| Dates.BeforeTrichotomy | scraper.py:143 | comparing dates is a strict total order: transitive, irreflexive, and of two dates exactly one is smaller or they are equal |
| Decimal.ValueOfPadded | scraper.py:140-142 | `int(s, 10)` reads back what `%0Nd` wrote |
| Decimal.PaddedInjective | scraper.py:387-388 | distinct indices give distinct `%04d` texts |
| SyncStatus.Datastore.Get | scraper.py:540 | `client.get(key)` returns the stored entity, or none |
| SyncStatus.Datastore.Put | scraper.py:588 | `client.put` replaces that one entity and no other |
| SyncStatus.SyncStatus.GetData | scraper.py:533-540 | the key is set to the endpoint's key and the entity under it is returned |
| SyncStatus.SyncStatus.GetLastArchivedDate | scraper.py:542-563 | the result is `ArchivedDate` of the stored entity |
| SyncStatus.ArchivedDate | scraper.py:542-563 | no entity, an empty entity, no collection field or an empty one all give the default date |
| SyncStatus.ArchivedDateResult | scraper.py:542-563 | the result is the default or a valid date; it fails if and only if a non-empty collection value is not a parseable date text; a non-empty stored text gives exactly the day `xdate_to_date_or_die` parses from it, or fails with its error |
| SyncStatus.SyncStatus.UpdateData | scraper.py:569-588 | exactly the endpoint's entity is replaced, by `Updated` of the old one |
| SyncStatus.NewEntity | scraper.py:582-586 | a new entity has the four fields, three empty texts and mtime 0 |
| SyncStatus.UpdatedFields | scraper.py:569-588 | the written entity holds the new field value, keeps every other field of an existing entity, or else has the default fields |
| SyncStatus.SyncStatus.UpdateLastArchivedDate | scraper.py:590-593 | stores the day as `x%d-%02d-%02d` in the collection field |
| SyncStatus.SyncStatus.UpdateDebugMessage | scraper.py:595-597 | stores the message in the debug-message field |
| SyncStatus.SyncStatus.UpdateMtime | scraper.py:604-606 | stores the mtime as an integer in the mtime field |
| SyncStatus.ArchivedDateRoundTrip | scraper.py:542-593 | after the archive date is written, reading it gives that day, whatever was stored before |
| SyncStatus.NewEntityHasNoDate | scraper.py:578-588 | an entity first created by writing another field reads as the default date |
| SyncStatus.DefaultArchivedDate | scraper.py:542 | with the default 2009-01-01, as the scraper calls it, nothing stored gives that day, and any day returned is valid |
| SyncStatus.ArchiveThenRead | scraper.py:542-593 | through the class, `update_last_archived_date(d)` then `get_last_archived_date()` gives `d` |
| TarfileGenerator.CreateTemporaryTarfiles | scraper.py:339-412 | fails if and only if `node_and_site` refuses the host. Otherwise: the tarfiles are named `<day>T000000Z-<node>-<site>-<experiment>-NNNN.tgz` from 0000; the batches are the greedy packing of the files; each carries the running `max_mtime`; there are no tarfiles exactly when there are no files |
| TarfileGenerator.Pack | scraper.py:367-412 | the loop yields names numbered in order, cuts the files greedily, and stamps each tarfile with the running largest mtime |
| Tarfiles.GreedyPackingUnique | scraper.py:384-401 | the greedy rule fixes the batches completely: two packings that both satisfy it are equal |
| Tarfiles.FirstBatchNoLonger | scraper.py:385-386 | of two greedy packings of the same files, neither first batch is longer than the other |
| Tarfiles.NoFilesNoBatches | scraper.py:402-404 | no files give no tarfile |
| Tarfiles.MtimesNondecreasing | scraper.py:384-409 | the yielded mtimes never decrease, and the last is at least every file's mtime |
| Tarfiles.MaxMtimeBound | scraper.py:371-384 | the running `max_mtime` is at least 0 and at least every mtime seen |
| Tarfiles.NamesDistinct | scraper.py:387-388 | no two tarfiles of a day share a name |
| Tarfiles.TwoOversizeFilesExample | scraper_test.py:355-370 | two files each over the limit give two tarfiles, `...-0000.tgz` and `...-0001.tgz`, one file each |
| Tarfiles.NamePrefixFields | scraper.py:362-365 | the prefix starts with the day stamp; split on `-` it gives the stamp with `T000000Z`, the node, the site, the experiment and an empty last field when none of them holds a dash |
| Tarfiles.TarfileNameIndex | scraper.py:387-388 | a tarfile name is the prefix, at least four digits that read back as the index, and `.tgz` |
| Tarfiles.ExamplePrefix | scraper.py:364-365 | the day 2016-01-28, `mlab9`, `dne04` and `exper` give the prefix `20160128T000000Z-mlab9-dne04-exper-` |
| Fleet.GetFleetData | sync/sync.py:108-118 | one answer per fetched entity, in fetch order, each the entity's `Normalise` |
| Fleet.NormaliseFields | sync/sync.py:114-116 | in one answer, the first column holds the key name and every other column the property, or `''` when it is missing |
| Fleet.NormalisedFields | sync/sync.py:103-117 | every answer has exactly the six `KEYS`; the first holds the key name, and the others hold the property or `''` when it is missing |
| Fleet.KeysDistinct | sync/sync.py:103-105 | the six column names are distinct |
| Ordering.StrLessTransitive | sync/sync.py:161 | string `<` is transitive |
| Ordering.StrLessTotal | sync/sync.py:161 | of two different strings, one is smaller |
| Ordering.ValueLessTotal | sync/sync.py:161 | of two different values, one is smaller; an integer is smaller than any string |
| Ordering.RowLessTransitive | sync/sync.py:161 | list `<` is transitive |
| Ordering.RowLessTotal | sync/sync.py:161 | of two different rows, one is smaller |
| Ordering.RowLessIrreflexive | sync/sync.py:161 | no row is smaller than itself |
| Sorting.Sort | sync/sync.py:161 | the rows come out in ascending order and are a permutation of the rows given |
| Sorting.SortedUnique | sync/sync.py:161 | two ascending sequences with the same rows are equal, so the sorted rows do not depend on the sort used |
| StatusPage.Rows | sync/sync.py:161 | the table rows are as many as the records, ascending, and a permutation of the records projected onto `KEYS` |
| StatusPage.DoGet | sync/sync.py:127-170 | the lines written, one `print` after another, are `Page` of the normalised records |
| StatusPage.EmptyPage | sync/sync.py:133-156 | the preamble always comes first, and `NO DATA` follows it and ends the page if and only if there are no records |
| StatusPage.HeaderLines | sync/sync.py:158-160 | with records, six `<th>` lines follow in `KEYS` order, then `</tr>` |
| StatusPage.RowBlocks | sync/sync.py:161-170 | with records, the lines of the i-th smallest row come right after the header and the i blocks of eight lines of the rows before it; the later rows and the footer follow |
| StatusPage.PageLength | sync/sync.py:153-170 | with records, the page is the preamble, seven header lines, eight lines per record and four footer lines |
| StatusPage.RowLinesShape | sync/sync.py:162-166 | a row is written as `<tr>`, then one `<td>` line per value in order with the value verbatim, then `</tr>` |
| StatusPage.RowsAreRecords | sync/sync.py:161 | every table row has six values and is the projection of some record |
| StatusPage.ProjectNormalise | sync/sync.py:113-116 | the row of a fetched entity is its key name, then its properties in `KEYS` order, `''` for the missing ones |
| StatusPage.ProjectedPermutation | sync/sync.py:161 | records that are a permutation of each other give rows that are too |
| StatusPage.PagePermutation | sync/sync.py:153-170 | the page does not depend on the order in which the datastore returns the records |

## Left out

- Subprocesses are not modelled: rsync, tar, gunzip and nocache. The listing arrives as lines and the day's files as `(path, size, mtime)` entries; the `tar` call, `os.remove` and the temporary `--files-from` file are left out.
- `sys.exit(1)` on a failing rsync call is left out, and so is `attempt_decompression`.
- The file system is not modelled: `chdir`, `os.listdir` (the files of a day come in sorted order as an input), `os.stat`, `find_all_days_to_upload`, `remove_datafiles`. `int(st_mtime)` is taken to be an integer already.
- GCS uploads (`upload_tarfile`) are not modelled. Nor is the clock: `max_new_archived_date`, `update_last_collection`, and `time.ctime()`, which becomes the `now` parameter of the status page.
- The datastore is a map. The `@retry` decorator, namespaces, the unused `_entity` field and the HTTP headers of the response are left out.
- `SyncStatusLogHandler`, argument parsing, `main`, `init`, the polling loop of the status server and its threads are not modelled.
- SyncStatus.SyncStatus.UpdateDebugMessage: takes the message as text. The UTF-8 decoding of `unicode(message, 'UTF-8')` and its failure on invalid bytes are not modelled, because the model has no byte strings.
- RsyncListing.ListRsyncFiles: takes the output already split into lines (`splitlines` is not modelled). A blank line, on which the source fails with an index error, is excluded by its precondition.
- `split('/', 3)` is modelled by the first three fields of the full split. These agree once the name holds three `/`.
- `get_last_archived_date` on an integer stored in the collection field is modelled as a failure (`NotText`), since the text methods it would call do not exist on integers. Zero is falsy, and gives the default date.
- StatusPage.DoGet: writes every value as it is. In the source, `print >>` on a unicode value holding a non-ASCII character raises `UnicodeEncodeError` (sync/sync.py:159 and 165), which cuts the page off; the model has no text encodings.
- DateText.ParseXDate: accepts only ASCII digits. The stored cell is unicode, and there `isdigit` and `int` also accept other decimal digits (Arabic-Indic, full-width and so on); the model does not model Unicode digit classes.
- The status server and the scraper are not connected in the model. `get_fleet_data` queries entities of kind `rsync_url` (sync/sync.py:112), while `SyncStatus` keys its entities by kind `dropboxrsyncaddress` (scraper.py:517), so `Fleet` takes the fetched entities as a parameter rather than reading the `SyncStatus` datastore.
