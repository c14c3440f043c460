# M3U playlist updater — a verified model

The system refreshes an IPTV playlist in M3U format. It downloads a
*target* playlist, groups its entries by the `group-title` attribute of
their `#EXTINF` lines, and replaces every target group that the *primary*
source also carries with the source's version. Optionally it takes one
named *special* group from a second source. It then writes the target's
header lines (`#EXTM3U`, `#---…`), followed by the lines of every group in
dictionary order.

The model follows the program's structure:

- `wrappers.dfy` (`Wrappers`): `Option` and `Result`.
- `lines.dfy` (`Lines`) holds the line vocabulary:
  - line kinds (`#EXTINF`, `#EXTVLCOPT`, `http…`, header and separator);
  - `str.strip()` over Python's whitespace set;
  - the search for `group-title="…"`, written as an explicit leftmost scan with the same matches as the regular expression;
  - `str.splitlines()` with all of Python's line boundaries;
  - the newline-terminated output text.
- `group_map.dfy` (`GroupMaps`): the Python dict of groups.
  - `GroupMap` is an ordered map: distinct keys in insertion order, plus a map from key to lines.
  - `Put` is dict assignment. An existing key keeps its place; a new key goes at the end.
  - `GroupTable` is the mutable dict that the loops update in place.
- `parser.dfy` (`Parser`): `parse_m3u`.
  - `Step`, `Scan` and `Parse` are the per-line specification.
  - `ParseM3U` is the loop, with the group state in local variables and the dict in a `GroupTable`.
  - The lemmas state what a parsed map contains.
- `metadata.dfy` (`Metadata`): `extract_metadata`, as the filter `MetadataLines` and the loop `ExtractMetadata`.
- `playlist.dfy` (`Playlist`): `update_playlist`.
  - The download is a function parameter `get` from URL to response. Only status 200 succeeds.
  - The merge policy is `MergePrimary`, `ApplySpecial` and `Merged`.
  - `Outcome` and `Updated` give the whole update as a function.
  - The methods `MergePrimaryInto`, `ApplySpecialTo`, `WritePlaylist` and `UpdatePlaylist` are the in-place steps, each proved equal to its function.
  - The end-to-end lemmas read the written text back.

The model follows the code in these details:
- The `group-title` value is stripped before it is compared with the current group (line 22).
- Comparison is on the stripped value, so `"A "` and `"A"` continue the same group.
- Header lines are never kept inside a group. Only `#EXTINF`, `#EXTVLCOPT` and `http…` lines are added to the buffer (lines 18-31).
- A buffer is stored only if the current name is truthy. A title that strips to the empty string never becomes a key (lines 24, 34).
- Lines seen before any group is opened are collected in the buffer. They are then lost when the first group opens or, if no group ever opens, at the final flush.

## Model

| member | source | states |
|---|---|---|
| Lines.Strip | update_playlist.py:22 | `str.strip()`: drops Python whitespace (the 29 characters of `str.isspace`) from both ends; its meaning is stated by `StripSpec` |
| Lines.FindTitle | update_playlist.py:20 | `re.search(r'group-title="([^"]+)"', line)` as a leftmost scan that returns the captured value or none; its meaning is stated by `FindTitleSpec` |
| Lines.LineName | update_playlist.py:18-22 | the group a line names: the stripped `group-title` value of an `#EXTINF` line that has one, none for every other line |
| Lines.SplitLines | update_playlist.py:11 | `str.splitlines()`: splits at every Python line boundary, takes `\r\n` as one boundary and yields no trailing empty piece |
| Lines.Serialise | update_playlist.py:84-90 | the text written for a sequence of lines: each line followed by `\n`, in order; stated by `SerialiseAppend` and `SplitSerialise` |
| Lines.MetadataIsNotKept | update_playlist.py:18-31 | a header or separator line is never one the parser keeps, so the two filters are disjoint (the tags differ within their common prefix length) |
| Lines.StripSpec | update_playlist.py:22 | `strip()` yields the slice of the value left after removing Python whitespace at both ends; the result neither starts nor ends with whitespace |
| Lines.TitleAtMatches | update_playlist.py:20 | the anchored match succeeds at a position exactly when `group-title="`, one or more non-quote characters and a closing quote occur there, and captures those characters |
| Lines.SearchTitleSpec | update_playlist.py:20 | the search from position i returns the value of the leftmost occurrence at or after i, and none when there is no occurrence |
| Lines.FindTitleSpec | update_playlist.py:20-21 | `re.search` finds a match exactly when the pattern occurs somewhere in the line, and captures the value of the leftmost occurrence |
| Lines.SplitLinesNoBreak | update_playlist.py:11 | no line produced by `splitlines()` contains a line boundary character |
| Lines.SplitSerialise | update_playlist.py:84-90 | splitting the written text (every line followed by `\n`) gives back exactly the lines written, when they contain no line boundary |
| Lines.SerialiseAppend | update_playlist.py:84-90 | the text of two line sequences written one after the other is the concatenation of their texts |
| GroupMaps.Put | update_playlist.py:25 | `groups[name] = content` on the ordered map (also lines 35, 67 and 74); the result keeps distinct keys, and `PutSemantics` states its effect |
| GroupMaps.PutSemantics | update_playlist.py:25 | dict assignment: the key maps to the new lines, every other key is untouched, an existing key keeps its position and a new key is appended at the end |
| GroupMaps.GroupTable.Assign | update_playlist.py:67 | assignment into the dict in place yields the ordered map `Put` describes, and keeps distinct keys |
| GroupMaps.GroupTable.constructor | update_playlist.py:12 | `{}` is the empty ordered map |
| GroupMaps.FlattenKeysHas | update_playlist.py:88-90 | a line is among the written group lines exactly when some listed group holds it |
| GroupMaps.OverridePut | update_playlist.py:25 | replaying an assignment on top of an earlier map commutes with the assignment itself |
| Parser.Flush | update_playlist.py:34-35 | storing the open group (also lines 24-25): the buffer is assigned to the current name only when the name is truthy and the buffer non-empty; the map stays well formed |
| Parser.Step | update_playlist.py:18-31 | one iteration of the loop over the lines, on the state (current group, buffer, dict); it keeps the dict well formed, and `StepShape` states its cases |
| Parser.Parse | update_playlist.py:11-37 | the groups `parse_m3u` returns: the scan over all lines followed by the final flush; the map is well formed |
| Parser.StepShape | update_playlist.py:18-31 | one loop iteration: a line naming a group other than the current one flushes and opens that group with the line; other info, option and URL lines are appended; every other line is dropped |
| Parser.ParseWellFormed | update_playlist.py:17-35 | every stored group is non-empty, starts with an `#EXTINF` line whose stripped title is the group's name, holds only info/option/URL lines naming no other group, and uses only input lines; every truthy title of the input is a key |
| Parser.ParseKeys | update_playlist.py:18-26 | a name is a key of the parsed map exactly when it is non-empty and is the stripped `group-title` of some `#EXTINF` line of the input |
| Parser.PrefixDiscarded | update_playlist.py:13-14 | lines before the first titled `#EXTINF` line do not affect the result: they are never stored |
| Parser.LastRunWins | update_playlist.py:23-27 | when a name recurs non-contiguously, its stored lines are exactly the retained lines of its last run, and the earlier run is lost; the last run moves no key that was already stored, and a name stored first by this run comes right after them |
| Parser.FirstNames | update_playlist.py:17-26 | the truthy group names of the lines, each listed once, in the order they are first announced |
| Parser.ParseKeyOrder | update_playlist.py:12-35 | the keys of the parsed dict, in iteration order, are exactly `FirstNames` of the input: a name keeps the position of its first run, whatever runs follow |
| Parser.ParseKeysPrefix | update_playlist.py:17-35 | parsing more lines never removes or reorders the keys already stored by a prefix |
| Parser.ParseAppend | update_playlist.py:23-35 | parsing a concatenation that starts a new group at the seam is parsing the first part, then replaying the assignments the second part makes |
| Parser.ParseFlatten | update_playlist.py:84-90 | parsing header lines followed by the lines of a well-formed map, in key order, gives back that map |
| Parser.ParseM3U | update_playlist.py:11-37 | the loop over the lines, updating the dict in place, builds exactly the map `Parse` specifies |
| Metadata.MetadataLines | update_playlist.py:50-52 | every extracted line starts with `#EXTM3U` or `#---` and occurs in the input |
| Metadata.MetadataPositionsSpec | update_playlist.py:50-52 | the positions selected are exactly those of the header and separator lines, in strictly increasing order |
| Metadata.MetadataIsSubsequence | update_playlist.py:50-54 | the extracted lines are the input lines at those positions: their subsequence, in the original order and with the original text |
| Metadata.MetadataAppend | update_playlist.py:50-52 | extraction distributes over concatenation |
| Metadata.MetadataOfMetadata | update_playlist.py:50-52 | a sequence of header lines is extracted unchanged |
| Metadata.ExtractMetadata | update_playlist.py:47-54 | the loop that appends the matching lines yields `MetadataLines` of the input |
| Playlist.Fetch | update_playlist.py:7-11 | a download and `splitlines()` of its body, with the exception for a non-200 status as an error value (also lines 43-47); `FetchSpec` states its meaning |
| Playlist.FetchSpec | update_playlist.py:7-11 | a download succeeds exactly on status 200, fails with the URL otherwise, and yields lines free of line boundaries |
| Playlist.ReplaceExisting | update_playlist.py:65-67 | `if group in target: target[group] = channels`, keeping the map well formed; `ReplaceExistingSpec` states its effect |
| Playlist.MergeFirst | update_playlist.py:64-67 | the target after the first j iterations of the loop over the primary source's groups, in the source's key order; the map stays well formed |
| Playlist.MergePrimary | update_playlist.py:64-67 | the target after the whole primary loop; the map stays well formed, and `MergePrimarySpec` states its contents |
| Playlist.ReplaceExistingSpec | update_playlist.py:65-67 | `if group in target: target[group] = channels` never adds or moves a key and changes only that group's lines |
| Playlist.MergeFirstKeys | update_playlist.py:64-67 | after any number of iterations of the primary loop the target's keys and their order are unchanged |
| Playlist.MergeFirstReplaced | update_playlist.py:64-67 | a target group the loop has visited holds the primary source's lines |
| Playlist.MergeFirstKept | update_playlist.py:64-67 | a target group the loop has not visited keeps its own lines |
| Playlist.MergePrimarySpec | update_playlist.py:64-67 | after the primary step the key set and key order equal the target's; a key in both maps takes the source's lines; a target-only key keeps its lines; source-only keys are not added |
| Playlist.ApplySpecial | update_playlist.py:72-76 | the special step: the group is assigned from the special source when that source has it, otherwise nothing changes; the map stays well formed |
| Playlist.SpecialRequested | update_playlist.py:70 | the special step runs only when both the group name and the special URL are truthy |
| Playlist.ApplySpecialSpec | update_playlist.py:72-76 | when the special source has the group, the group takes its lines, in place if present and appended otherwise; when it does not, the map is unchanged |
| Playlist.Merged | update_playlist.py:60-76 | the groups to write: the primary step on the target, then the special step when one is requested; the map stays well formed |
| Playlist.MergedSpec | update_playlist.py:60-76 | the written groups: the target's keys in order, plus the special group at the end if only the special source has it; the special source's lines win over the primary's, which win over the target's |
| Playlist.MergedWellFormed | update_playlist.py:60-76 | merging parsed maps keeps every group a run of entries of its own name |
| Playlist.MergedDrawn | update_playlist.py:60-76 | every written line comes from the target, the primary source or the special source under the same group |
| Playlist.Outcome | update_playlist.py:58-79 | the downloads in the program's order (target, primary, special source, target again) and the merged groups with the target's header lines, or the first failure; a success carries a well-formed map |
| Playlist.Render | update_playlist.py:84-90 | the written file: the header lines, then every group's lines in key order, each followed by `\n` |
| Playlist.Updated | update_playlist.py:58-90 | the whole update as a function: the rendered text of `Outcome`, or its error |
| Playlist.UpdatedErrors | update_playlist.py:58-79 | the update fails exactly when a download it needs fails (or there is no primary URL), and reports the first failure in the order target, primary, special |
| Playlist.RenderReadsBack | update_playlist.py:84-90 | the written text splits into the header lines followed by the groups' lines in order; parsing it gives back the written groups and extracting metadata gives back the header lines |
| Playlist.UpdatedReadsBack | update_playlist.py:58-90 | end to end: when the update succeeds, the written playlist parses to exactly the merged groups, which are well formed, and its metadata is the target's header lines |
| Playlist.MergePrimaryInto | update_playlist.py:64-67 | the in-place loop over the source's groups leaves the target table equal to `MergePrimary` of its old contents |
| Playlist.ApplySpecialTo | update_playlist.py:70-76 | the in-place special step leaves the target table equal to `ApplySpecial` of its old contents |
| Playlist.WriteLines | update_playlist.py:89-90 | writing each line with a newline appends the text of those lines |
| Playlist.WritePlaylist | update_playlist.py:82-90 | the writing loops produce the header lines, then every group's lines in key order, each terminated by `\n` |
| Playlist.UpdatePlaylist | update_playlist.py:58-90 | the whole update, run step by step on mutable tables, returns exactly `Updated`: the rendered merged playlist or the first download error |

## Left out

- Network I/O: `requests.get` is the parameter `get`. A transport error and a non-200 status both become `DownloadFailed(url)`. The exception message text is not modelled.
- The text decoding of `response.text` is not modelled. The body is taken as a sequence of Unicode characters.
- The second download of the target (line 79) goes through the same `get`, so it agrees with the first. A server that answers differently the second time is not modelled.
- An empty `source_urls` raises `IndexError` at line 63, after the target is downloaded. It is modelled as the error `NoPrimarySource` at that point.
- `special_group` and `special_source` are optional strings. Their truthiness is "present and non-empty". Values of other Python types are not modelled.
- The `re` engine itself is not modelled. The pattern is matched by an explicit leftmost scan. For a pattern of this shape the result is the same, and `FindTitleSpec` shows it is the leftmost occurrence.
- Opening and writing the output file (line 82) is not modelled. The model produces the text that would be written. File-system errors are not modelled.
- The `print` progress messages (lines 66, 73, 76, 92) are left out.
- The `__main__` block with its fixed URLs and its `try`/`except` (lines 95-116) is left out.
