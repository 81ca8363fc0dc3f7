# D3 item extractor — a Dafny model of its core

`D3ItemExtractor.py` takes a d3planner build URL and fetches the build. The user chooses a
profile. The script then reshapes the profile's Kanai's Cube items, equipped items and legendary
gems into a flat `items_list`, names each entry from a translation table and builds its item
page URL. It asks the user to tag each entry (craft, bounty, gems, cube/gamble, skip), remembering
the answers in a tag cache. It prices cube/gamble entries from a per-class gambling table and
groups everything into an `Items` bookmark folder.

This project models that pipeline as pure functions over immutable values:

| module | file | what it models |
|---|---|---|
| `Wrappers` | `wrappers.dfy` | `Option`, `Result`, and the Python exceptions that end a run |
| `Text` | `text.dfy` | the parts of Python's `str` the script uses: `replace`, ASCII `lower`, `split`, `find`, slicing, `str(int)`, `int(str)` |
| `Sorting` | `sorting.dfy` | `list.sort(key=…)` for integer keys: a stable sort |
| `BuildUrl` | `buildurl.dfy` | the URL pattern check and the build-id slicing |
| `Items` | `items.dfy` | the profile, the cube ids, and gem extraction per equipped slot |
| `Resolve` | `resolve.dfy` | the translation loops for cube and equipped items, including the gem elif chain |
| `Links` | `links.dfy` | `handle_special_ids`, the slug, item URLs, and `items_list` |
| `Classify` | `classify.dfy` | the tag prompt loop with its cache |
| `Costs` | `costs.dfy` | bloodshard and death's breath costs |
| `Bookmarks` | `bookmarks.dfy` | the category folders, the cube/gamble labels and their sort |
| `Pipeline` | `pipeline.dfy` | a whole run: profile choice, every stage in order, and which tag cache is left on disk |

Every run-ending Python exception is a `Result` error: `KeyError(key)`, `IndexError`, `ValueError(text)`, `ZeroDivisionError`, `EOFError`, and `InvalidUrl` for the `exit(1)` of the URL check. Console input is a sequence of integers. The first integer picks the profile; the rest are tag answers.

Notes on what the code does:

- When several translation records share an id, the code keeps the **last** match, because each later match overwrites the name.
- A gem entry that is an empty list raises `IndexError`. A dict without `"id"` raises `KeyError`. Only other shapes are skipped.
- The tag cache is written after tagging but **before** the costs and folders are computed. A run that fails in those later steps still leaves the new tags on disk (`Pipeline.RunPersistsTags`).
- The prompt loop never gives up. With finite input, running out of answers is `EOFError`.

## Model

| member | source | states |
|---|---|---|
| Links.SpecialIdFixesAllButOne | D3ItemExtractor.py:11-15 | `P3_Unique_Ring_107` becomes `Unique_Ring_107_x1`; the remap changes an id exactly when it is that one, and applying it twice is the same as once |
| Links.RemappedUrl | D3ItemExtractor.py:11-15 | whatever the item's name, the page URL of `P3_Unique_Ring_107` ends in `-Unique_Ring_107_x1` |
| BuildUrl.MatchesIff | D3ItemExtractor.py:265 | the pattern accepts exactly: the planner prefix, a non-empty run of characters `\d` matches (the Unicode decimal digits, general category Nd), then an empty tail, a lone newline, or a `#` fragment with no newline, optionally followed by one final newline |
| BuildUrl.CheckUrlAsWritten | D3ItemExtractor.py:265 | the entry point fails with InvalidUrl exactly on URLs the pattern rejects; an accepted URL gives the build id `main` slices from it at line 20: the text after the last `/`, cut at the first `#` |
| BuildUrl.SplitAtDigits | D3ItemExtractor.py:265 | split at the end of its `\d` run, a URL matches exactly when its tail is accepted, and matches as a whole exactly when the tail is empty or a newline-free fragment |
| BuildUrl.ArabicIndicDigits | D3ItemExtractor.py:20 | a planner URL whose build id is written in Arabic-Indic digits passes the check, and both the script's and the corrected slicing return those digits |
| BuildUrl.BuildIdAsWrittenOfMatch | D3ItemExtractor.py:20 | for an accepted URL whose tail has no `/`, the build id is the digit run; when the tail is a lone newline, that newline is kept |
| BuildUrl.SlashInFragment | D3ItemExtractor.py:20 | `…/d3planner/123#a/b` is accepted, the script's build id for it is `b`, and the corrected one is `123` |
| BuildUrl.TrailingNewline | D3ItemExtractor.py:265 | `…/d3planner/123\n` is accepted with build id `123\n`; the whole-string check rejects it |
| BuildUrl.BuildIdOfStrictMatch | D3ItemExtractor.py:20 | once the fragment is dropped before the path is split, the build id of a whole-string match is its digit run, whatever the fragment holds |
| BuildUrl.CheckUrl | D3ItemExtractor.py:20 | the corrected check fails exactly on URLs that do not match in full; on success it returns a non-empty digit run that, with some accepted tail, makes up the URL after the prefix |
| BuildUrl.StrictImpliesMatches | D3ItemExtractor.py:265 | every URL the corrected check accepts, the written pattern accepts too |
| Text.Split | D3ItemExtractor.py:20 | `split` returns one more piece than there are separators, no piece holds one, and joining the pieces gives the text back |
| Text.SplitJoin | D3ItemExtractor.py:20 | splitting the join of separator-free pieces gives the pieces back |
| Pipeline.ChooseProfile | D3ItemExtractor.py:47-48 | the first input `k` picks `profiles[k]`, or `profiles[len + k]` when `k` is negative; an index out of range is IndexError and no input is EOFError |
| Pipeline.PyIndexTwoWays | D3ItemExtractor.py:48 | each profile is reached by its position and by that position minus the number of profiles |
| Items.Extract | D3ItemExtractor.py:56-59 | the cube ids are weapon, armor and jewelry in that order, and extraction fails only on a malformed gem entry |
| Items.GemStep | D3ItemExtractor.py:71-77 | one gem entry fails exactly when it is an empty list, with IndexError, or a dict without `"id"`, with KeyError `id`; otherwise a string-headed list sets the name, a dict sets the id, and other shapes change nothing |
| Items.ScanGemsLast | D3ItemExtractor.py:71-77 | scanning a slot's entries keeps the last name and the last id met, and fails exactly when some entry is malformed |
| Items.ExtractGem | D3ItemExtractor.py:67-81 | the slot's gem has the last dict's id and the last list's name, is known by name only when no dict occurs, and is absent exactly when neither kind occurs |
| Items.LastSome | D3ItemExtractor.py:71-77 | the last present value of a sequence is absent only when all are, and nothing present follows it |
| Items.ExtractEquipped | D3ItemExtractor.py:67-69 | every equipped slot, in document order, keeps its slot name and item id beside its extracted gem |
| Resolve.TranslateNameIsLastMatch | D3ItemExtractor.py:91-94 | an id takes the name of the last translation record with that id, and keeps its name when none has it |
| Resolve.TranslateNameFound | D3ItemExtractor.py:91-94 | the scan ends with a name exactly when it started with one or some record has the id |
| Resolve.TranslateCube | D3ItemExtractor.py:91-94 | each cube id keeps its place and gets a name exactly when some record has its id; that name is the last matching record's |
| Resolve.ResolveStep | D3ItemExtractor.py:98-107 | one record fails only for a gem known by name, absent from the legendary-gem table, seen on a record that is not the item's own; it never changes the slot or its item id |
| Resolve.ResolveSlotById | D3ItemExtractor.py:97-104 | for a slot without a gem or with a gem id, the scan never fails; the item gets its cube-scan name, and the gem takes the last matching record's name unless its id is the item's own |
| Resolve.ResolveSlotByName | D3ItemExtractor.py:97-107 | a gem known by name stays so while records match the item; the first other record looks it up (KeyError if absent), and from there it resolves like a gem with an id |
| Resolve.ResolveEquipped | D3ItemExtractor.py:97-107 | the equipped loop succeeds exactly when every slot does, and keeps slot order |
| Text.ReplaceCharCount | D3ItemExtractor.py:113-114 | replacing a character changes each character's count by the replaced count times its count in the replacement |
| Links.SlugShape | D3ItemExtractor.py:113-115 | a slug has no apostrophe, no space and no upper-case ASCII letter, and as many hyphens as the name has spaces |
| Links.SlugIsByChar | D3ItemExtractor.py:113-115 | the three replacements and `lower` act as one independent rewrite per character |
| Links.ItemUrlInjective | D3ItemExtractor.py:115-116 | for a fixed name the URL determines the remapped id, and for a fixed id it determines the slug |
| Links.SlotsWithGems | D3ItemExtractor.py:112 | a slot is kept exactly when it is one of the slots and has a gem |
| Links.SlotsWithGemsAppend | D3ItemExtractor.py:112 | keeping the slots with gems distributes over concatenation, so each is kept once and in slot order |
| Links.SlotsWithGemsOne | D3ItemExtractor.py:112 | a single slot is kept exactly when it has a gem |
| Links.ItemsList | D3ItemExtractor.py:112 | `items_list` is the cube items, then the equipped items, then the gems of the slots that have one, each in slot order |
| Links.Link | D3ItemExtractor.py:113-117 | a missing name is KeyError `name`, checked first; then a missing id is KeyError `id`; otherwise the URL is base, slug, hyphen, remapped id |
| Links.LinkAll | D3ItemExtractor.py:112-118 | the URL loop succeeds exactly when every entry has a name and an id, and otherwise raises the error of the first entry that lacks one |
| Links.LinkAllUrls | D3ItemExtractor.py:115-117 | every URL splits into the base URL, the slug of the entry's name, and a hyphen before the remapped id |
| Classify.CategoryOfInjective | D3ItemExtractor.py:148-157 | the five codes select five different categories |
| Classify.ReadCategory | D3ItemExtractor.py:145-157 | the prompt succeeds exactly when a code 1–5 remains; it answers with the category of the first code, drops everything before it, and raises EOFError otherwise |
| Classify.ClassifyOne | D3ItemExtractor.py:140-160 | a cached id takes its cached category without reading input; otherwise the prompt's answer becomes its category and its cache entry |
| Classify.ClassifyAll | D3ItemExtractor.py:138-160 | tagging keeps the entries in order, never changes an existing cache entry, and leaves each entry's id in the cache with the entry's own category |
| Classify.ClassifyAllKeys | D3ItemExtractor.py:159-160 | the cache afterwards has exactly the old ids plus the entries' ids |
| Classify.ClassifyAllValid | D3ItemExtractor.py:148-160 | a cache holding only the five categories still does afterwards |
| Classify.ClassifyAllSuffix | D3ItemExtractor.py:147 | tagging consumes a prefix of the answers and leaves the rest |
| Classify.ClassifyCached | D3ItemExtractor.py:140-142 | entries whose ids are all cached read no input and take their cached categories, and the cache is unchanged |
| Classify.ClassifyTwice | D3ItemExtractor.py:138-164 | a second tagging with the cache the first left reads no input and assigns the same categories |
| Classify.ClassifyExhaustive | D3ItemExtractor.py:138-160 | starting from a valid cache, every entry ends in one of the five categories |
| Costs.CeilDiv | D3ItemExtractor.py:177-180 | the result is the least integer at or above the exact quotient, for either sign of the divisor |
| Costs.CeilDivPositive | D3ItemExtractor.py:177-180 | a positive quotient's ceiling is at least one, and is the quotient itself when the division is exact |
| Costs.CostOf | D3ItemExtractor.py:177-180 | a record with a zero chance or uchance is ZeroDivisionError; otherwise the costs are `ceil(cost*10/chance)` and `ceil(25/uchance)` |
| Costs.CostsAtLeastOne | D3ItemExtractor.py:177-180 | with positive cost, chance and uchance both costs are at least one, and the bloodshard cost is the least whose multiple of chance covers ten times the cost |
| Costs.PriceItemLastMatch | D3ItemExtractor.py:172-180 | pricing fails exactly when a record with the entry's id has a zero chance; otherwise the last such record sets the costs, and an entry no record matches gets none |
| Costs.PriceItemFails | D3ItemExtractor.py:172-180 | the scan for one entry raises ZeroDivisionError exactly when some record with its id has a zero chance |
| Costs.PriceItemNoRecord | D3ItemExtractor.py:172-180 | when no record has the entry's id the entry keeps no cost |
| Costs.PriceItemLast | D3ItemExtractor.py:172-180 | when no division fails, the costs are those of the last record with the entry's id |
| Costs.PriceAll | D3ItemExtractor.py:171-172 | a class missing from the gambling file is KeyError once there is an entry to price, and not before; otherwise each entry is priced in place |
| Costs.PriceEach | D3ItemExtractor.py:171-180 | the cost loop succeeds exactly when every entry's scan does, and keeps order |
| Bookmarks.InCategory | D3ItemExtractor.py:185-186 | a folder's group holds exactly the entries of its category |
| Bookmarks.InCategoryAppend | D3ItemExtractor.py:185-198 | grouping keeps `items_list` order |
| Bookmarks.InCategoryPartition | D3ItemExtractor.py:182-204 | with valid categories, the five groups together hold as many entries as `items_list` |
| Bookmarks.SkipInNoFolder | D3ItemExtractor.py:182-204 | a skip entry lies in none of the four folder groups |
| Bookmarks.PlainFolder | D3ItemExtractor.py:182-198 | the Craft, Bounty and Gems folders list their group's names and URLs |
| Bookmarks.CubeEntries | D3ItemExtractor.py:203-204 | labelling succeeds exactly when every cube/gamble entry was priced, and is KeyError `bloodshard_cost` otherwise |
| Bookmarks.SortKeys | D3ItemExtractor.py:206-207 | the sort computes every key before comparing; it fails when any key does, with the error of the first key that fails, left to right |
| Bookmarks.SortKeyAsWritten | D3ItemExtractor.py:206-207 | the sort key is `int()` of the text between the label's first two delimiters with its last two characters cut off; text that is not an integer is ValueError |
| Bookmarks.KeyTextOfLabel | D3ItemExtractor.py:206-207 | for a name with no delimiter of its own, that text is the bloodshard figure minus its last two characters |
| Bookmarks.SortKeyOfLabel | D3ItemExtractor.py:206-207 | for such a name and a non-negative cost, the key is the cost divided by 100, or ValueError when the cost is below 100 |
| Bookmarks.CubeGambleAsWrittenKeys | D3ItemExtractor.py:200-207 | as written, the cube/gamble folder fails exactly when some cost is below 100, and otherwise is sorted by the cost divided by 100 |
| Bookmarks.ThreeGamblesAsWritten | D3ItemExtractor.py:206-207 | as written, gambles costing 30, 5 and 100 bloodshards make the sort fail with ValueError |
| Bookmarks.CubeGambleFolder | D3ItemExtractor.py:200-207 | the corrected folder fails only on an unpriced entry, and holds one child per cube/gamble entry |
| Bookmarks.CubeGambleSorted | D3ItemExtractor.py:206-207 | the corrected folder is a permutation of the labelled entries, ascending by bloodshard cost, with ties kept in `items_list` order |
| Bookmarks.SortsThreeGambles | D3ItemExtractor.py:206-207 | three cube/gamble entries whose middle one is cheapest and last one dearest come out middle, first, last (30, 5, 100 becomes 5, 30, 100) |
| Bookmarks.ThreeGamblesSorted | D3ItemExtractor.py:206-207 | with the corrected key, gambles A, B, C costing 30, 5 and 100 bloodshards are listed B, A, C |
| Bookmarks.ItemsFolderAround | D3ItemExtractor.py:210-213 | `Items` holds Craft, Bounty, Gems and the given Cube/Gamble folder in that order, and fails exactly when that folder does |
| Bookmarks.ItemsFolder | D3ItemExtractor.py:200-213 | with the corrected sort, the `Items` folder fails exactly when a cube/gamble entry is unpriced, with KeyError `bloodshard_cost` |
| Bookmarks.ItemsFolderAsWritten | D3ItemExtractor.py:200-213 | as written, for clear names and non-negative costs, the `Items` folder fails with ValueError exactly when a cube/gamble entry costs under 100 bloodshards |
| Sorting.SortByKey | D3ItemExtractor.py:206-207 | sorting keeps every element as often as before and leaves the keys ascending |
| Sorting.SortByKeyStable | D3ItemExtractor.py:206-207 | elements with equal keys keep their relative order |
| Text.ParseIntToString | D3ItemExtractor.py:206-207 | `int(str(n)) == n` for every integer |
| Text.NatToStringDropTwo | D3ItemExtractor.py:206-207 | a number has three or more digits exactly when it is at least 100, and cutting the last two digits divides it by 100 |
| Pipeline.PrepareAfterCheck | D3ItemExtractor.py:47-118 | a failed URL check ends the run with its error; a prepared run carries the checked build id and has used exactly the first input |
| Pipeline.Prepare | D3ItemExtractor.py:20-118 | with the corrected check, a URL that does not match in full ends the run with InvalidUrl, and a prepared run has the digit-run build id |
| Pipeline.PrepareAsWritten | D3ItemExtractor.py:20-118 | as written, a URL the pattern rejects ends the run with InvalidUrl, and a prepared run has the build id the script slices out |
| Pipeline.PrepareAsWrittenDiffers | D3ItemExtractor.py:20 | the script goes on with `…/123` plus a newline, which the corrected check stops, and goes on with build `b` for `…/123#a/b`, where the corrected run uses `123` |
| Pipeline.PrepareReadsOneAnswer | D3ItemExtractor.py:47-118 | preparing a run reads only the profile choice: other answers after the same first one give the same prepared run |
| Pipeline.Finish | D3ItemExtractor.py:138-213 | from the tag prompt on, the cache left extends the old one and stays valid, running out of answers leaves the old cache with EOFError, and a finished run keeps the prepared build id |
| Pipeline.Run | D3ItemExtractor.py:20-213 | a corrected run leaves a cache that extends the old one and stays valid; a run that fails before tagging leaves the old cache and reports that failure |
| Pipeline.RunAsWritten | D3ItemExtractor.py:20-213 | the run as the script has it: a URL the pattern rejects leaves the old cache with InvalidUrl, and a finished run has the script's build id |
| Pipeline.FinishCheapGamble | D3ItemExtractor.py:162-213 | once entries are tagged and priced, a cube/gamble entry under 100 bloodshards ends the script's run in ValueError after the cache is written, while the corrected run completes with the same cache |
| Pipeline.RunPersistsTags | D3ItemExtractor.py:162-164 | once tagging succeeds, its cache is what the run leaves, even if costs or folders fail later |
| Pipeline.RunTagsEveryEntry | D3ItemExtractor.py:138-180 | a successful run prices every entry of `items_list` once, in order, with the category the cache holds for it |
| Pipeline.RunAgainAsksNothing | D3ItemExtractor.py:138-164 | rerunning with the cache a run left and only the profile choice asks nothing and gives the same result |

## Left out

- The HTTP fetch and its status check (lines 25-30), and the commented-out reachability pass (lines 121-125). They are network I/O. The fetched profiles are an input to `Pipeline.Run`.
- JSON parsing, and reading and writing the translation, tag, gambling and output files. The tables are Dafny values. The tag cache is a map passed in, and the cache the run leaves is returned in `Pipeline.Outcome`.
- The prompts and prints. Input is a sequence of integers. `int()` failing on non-numeric console text is not modelled.
- The Chrome bookmarks file lookup and rewrite (lines 216-231), argparse (lines 250-262), and the output file name and write (lines 235-244). They are OS and file I/O. The `Items` folder is the result.
- `data['name']`, `profileName` and the unused `standardGems` list. They only feed output naming.
- Costs.CostOf: costs use exact rational ceilings, not IEEE float division, so a float rounding error on huge values is not modelled. `cost`, `chance` and `uchance` are integers.
- Text.Lower: only ASCII letters change case. Python's full Unicode `lower()` is not modelled.
- BuildUrl.IsDecimal: the characters `\d` matches are those of Unicode 15.0, which Python 3.12 uses. Other Python versions may accept a slightly different set.
- Text.ParseInt: only ASCII digits and ASCII whitespace are accepted, not Python's Unicode digits and spaces.
- Classify.ReadCategory: the real prompt waits forever for a valid code. Finite input that runs out without one ends in EOFError.
- Items.Profile: ids are strings, and the planner JSON is assumed to have its required keys (`profiles`, `kanai`, `items`, each item's `id`). Gem entries are classified only as list, dict, or other. Equipped slots are a sequence in document order, where Python iterates a dict.

## Findings

| source | as written | input that shows it | evidently intended | confidence | as-written member | corrected member |
|---|---|---|---|---|---|---|
| D3ItemExtractor.py:206-207 | the sort key ends two characters before the second ` - `, so it parses the bloodshard cost without its last two digits | gambles named A, B, C costing 30, 5 and 100 bloodshards: the key of A is `int("")`, which raises ValueError (`Bookmarks.ThreeGamblesAsWritten`) | sort ascending by bloodshard cost, giving 5, 30, 100 (`Bookmarks.SortsThreeGambles`) | not executed; high | Bookmarks.CubeGambleFolderAsWritten | Bookmarks.CubeGambleFolder |
| D3ItemExtractor.py:20 | the build id is the last `/` segment of the whole URL, fragment included, cut at `#` | `https://maxroll.gg/d3/d3planner/123#a/b` passes the check, and its build id is `b` (`BuildUrl.SlashInFragment`) | the digit run `123`: drop the fragment, then take the last segment (`BuildUrl.BuildIdOfStrictMatch`) | not executed; high | BuildUrl.BuildIdAsWritten | BuildUrl.BuildId |
| D3ItemExtractor.py:265 | `$` also matches before one final newline | `https://maxroll.gg/d3/d3planner/123` followed by a newline passes, with build id `123` plus the newline (`BuildUrl.TrailingNewline`) | a match of the whole string (`BuildUrl.MatchesStrict`) | not executed; medium | BuildUrl.CheckUrlAsWritten | BuildUrl.CheckUrl |

The model keeps both runs. `Pipeline.RunAsWritten` uses the members as written: `BuildUrl.CheckUrlAsWritten` through `Pipeline.PrepareAsWritten`, and `Bookmarks.CubeGambleFolderAsWritten` through `Bookmarks.ItemsFolderAsWritten`. `Pipeline.Run` uses the corrected `BuildUrl.CheckUrl` and `Bookmarks.CubeGambleFolder`. Everything between the URL check and the folder is shared (`Pipeline.PrepareAfterCheck`, `Pipeline.Finish`). `Pipeline.PrepareAsWrittenDiffers` and `Pipeline.FinishCheapGamble` show where the two runs part.
