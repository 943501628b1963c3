# FTB Quest Manager — a verified model of the core

This project models the core of FTB Quest Manager, a console tool that
reads an FTB Quests modpack's `chapters` directory (`.snbt` files),
validates each file into a typed `Chapter` and lets the user browse and
edit chapters, quests, tasks and rewards. Four source files are modelled:

- `module/model/quest_models.py`: the schema. `Item`, `QuestComponent`
  (with its two distinct subtypes `Task` and `Reward`), `Quest` and
  `Chapter` become datatypes. Validation becomes a function
  `Validate…(raw): Result<…>` over a raw SNBT value. It checks each
  required field and fills in each default. A `Dump…` function writes an
  entity back as a raw value, and the round trip `Validate(Dump(x)) == Ok(x)`
  is proved for every entity (`quest_models.dfy`).
- `module/controller/quest_edit.py`: the copy-on-write edit API. Every
  edit is a pure function returning a changed copy. Its contracts state
  the changed field and that every other field is equal. The append,
  filter and replace-by-id laws are proved on the quest, task and reward
  lists (`quest_edit.dfy`, on the generic lemmas of `keyed_lists.dfy`).
- `module/controller/ftb_loader.py`: the loader.
  - The directory test and the priority order of the search (working
    directory, script directory, then the prompt loop).
  - The `.snbt` filter and the loading loop, which stops at the first
    file that fails.
  - The parsing loop, which drops the chapters that fail validation.
  - The top-level orchestration.
  The two loops and the prompt loop are methods proved against
  specification functions (`ftb_loader.dfy`).
- `module/navigation/NavigationState.py`: the breadcrumb stack. It is a
  class with a `seq<string>` field and the methods `Go`, `Back` and
  `Reset` (`navigation_state.dfy`).

The environment is passed in as parameters:
- a `FileSystem` (`string -> DirState`) stands for `os.path.isdir` and
  `os.listdir`;
- a `Reader` (`string -> Option<Raw>`) stands for `open` followed by the
  SNBT parser;
- the working directory and the script directory are strings;
- the answers typed at the prompt are a finite sequence.

Python's insertion-ordered `dict` is modelled in `dicts.dfy`: assigning to
an existing key replaces its value in place. The `str` operations the core
uses (`strip`, `split`, `join`, `replace`, `endswith`, `lower`) are written
out in `text.dfy`, with their own lemmas.

## Model

| member | source | states |
|---|---|---|
| QuestModels.ValidateItem | module/model/quest_models.py:5-8 | an accepted item is a mapping whose `id` is the input string; `count` is the input integer, None when null and 1 when absent; `components` is the input mapping, None when null or absent |
| QuestModels.ItemAccepted | module/model/quest_models.py:5-8 | an item is accepted as `i` exactly when its fields read as `i` in that sense, whatever other keys the mapping holds |
| QuestModels.ItemRoundTrip | module/model/quest_models.py:5-8 | every item written out validates back to itself |
| QuestModels.ValidateComponent | module/model/quest_models.py:10-18 | an accepted component has the input's `id` and `type`; a present `item` is what item validation gives for it, None when null or absent; `advancement` is the input string or None; `optional_task` the input flag, None when null, False when absent; `count` keeps its integer-or-string variant and is None when null or absent |
| QuestModels.ComponentAccepted | module/model/quest_models.py:10-18 | a component is accepted as `c` exactly when its fields read as `c` in that sense, whatever other keys the mapping holds |
| QuestModels.MinimalComponent | module/model/quest_models.py:10-18 | a component given only `id` and `type` validates to all defaults |
| QuestModels.ComponentReadBack | module/model/quest_models.py:10-17 | the required fields, `advancement` and `optional_task` of a written component read back unchanged |
| QuestModels.ComponentReadBackOptional | module/model/quest_models.py:14-18 | the `item` and `count` of a written component read back unchanged, the string or integer variant of `count` included |
| QuestModels.ComponentRoundTrip | module/model/quest_models.py:10-18 | every component written out validates back to itself |
| QuestModels.ValidateTasks | module/model/quest_models.py:20-21 | a task list is accepted exactly when every element validates as a component, and each element becomes a `Task` in order |
| QuestModels.ValidateRewards | module/model/quest_models.py:23-24 | a reward list is accepted exactly when every element validates as a component, and each element becomes a `Reward` in order |
| QuestModels.TasksRoundTrip | module/model/quest_models.py:20-21 | a written task list validates back to itself |
| QuestModels.RewardsRoundTrip | module/model/quest_models.py:23-24 | a written reward list validates back to itself |
| QuestModels.ValidateStrings | module/model/quest_models.py:30 | a list of strings is accepted exactly when every element is a string, and the values are kept in order |
| QuestModels.StringsRoundTrip | module/model/quest_models.py:30 | a written string list validates back to itself |
| QuestModels.ValidateQuest | module/model/quest_models.py:26-40 | an accepted quest has the input's `id`; `x` and `y` are the input numbers, an integer taken as the same real; each present list is what list validation gives for its elements and an absent one is empty; each of the six `hide_*` flags is the input flag, None when null, False when absent |
| QuestModels.QuestAccepted | module/model/quest_models.py:26-40 | a quest is accepted as `q` exactly when its fields read as `q` in that sense, whatever other keys the mapping holds |
| QuestModels.ValidateQuests | module/model/quest_models.py:53 | a quest list is accepted exactly when every element validates, and the quests are kept in order |
| QuestModels.MinimalQuest | module/model/quest_models.py:26-40 | a quest given only `id`, `x` and `y` validates to all defaults |
| QuestModels.QuestRoundTrip | module/model/quest_models.py:26-40 | every quest written out validates back to itself |
| QuestModels.QuestsRoundTrip | module/model/quest_models.py:53 | a written quest list validates back to itself |
| QuestModels.ChapterKeyFields | module/model/quest_models.py:46-51 | the four required chapter fields are accepted exactly when `id`, `filename` and `group` are strings and `order_index` is an integer, and the values read are the input's |
| QuestModels.ChapterHeading | module/model/quest_models.py:43-47 | an accepted `title` and `subtitle` are the input strings or None; a present `icon` is what item validation gives for it, None when null or absent |
| QuestModels.ChapterHeadingAccepted | module/model/quest_models.py:43-47 | a heading whose fields read as `h` is accepted as `h` |
| QuestModels.ChapterLists | module/model/quest_models.py:50-53 | present `tags` and `quests` are what list validation gives for their elements; absent ones are empty |
| QuestModels.ChapterListsAccepted | module/model/quest_models.py:50-53 | lists whose fields read as `l` are accepted as `l` |
| QuestModels.ChapterDefaults1 | module/model/quest_models.py:58-63 | the toast, shape and visibility settings are the input values, None when null; absent ones take False, or "circle" for the shape |
| QuestModels.ChapterDefaults1Accepted | module/model/quest_models.py:58-63 | settings whose fields read as `d` are accepted as `d` |
| QuestModels.ChapterDefaults2 | module/model/quest_models.py:65-69 | the autofocus, progression and task settings are the input values, None when null; absent ones take None, "linear" for the progression mode, or False |
| QuestModels.ChapterDefaults2Accepted | module/model/quest_models.py:65-69 | settings whose fields read as `d` are accepted as `d` |
| QuestModels.ValidateChapter | module/model/quest_models.py:42-69 | an accepted chapter has the input's `id`, `filename`, `group` and `order_index`, and each optional field reads as the input value in the sense of the five groups above; absent fields take the declared defaults: None, empty, "circle", "linear" or False |
| QuestModels.ChapterAccepted | module/model/quest_models.py:42-69 | a chapter is accepted as `c` exactly when its fields read as `c`, whatever other keys the mapping holds |
| QuestModels.ChapterRejectsInvalidQuest | module/model/quest_models.py:53 | a chapter holding one quest that fails validation is rejected as a whole |
| QuestModels.MinimalChapter | module/model/quest_models.py:42-69 | a chapter given only its four required fields validates to all defaults |
| QuestModels.ChapterRequiresFields | module/model/quest_models.py:46-51 | a chapter missing any one of `id`, `filename`, `group` or `order_index` is rejected |
| QuestModels.ChapterRoundTrip | module/model/quest_models.py:42-69 | every chapter written out validates back to itself |
| QuestModels.ComponentOptionalsKept | module/controller/quest_edit.py:85-92 | merging the required fields over the keyword arguments leaves every optional component field as the keyword arguments give it |
| QuestModels.QuestOptionalsKept | module/controller/quest_edit.py:95-97 | merging `id`, `x` and `y` over the keyword arguments leaves every optional quest field as the keyword arguments give it |
| QuestModels.ChapterOptionalsKept | module/controller/quest_edit.py:100-102 | merging the four required fields over the keyword arguments leaves every optional chapter field as the keyword arguments give it |
| QuestEdit.EditChapterTitle | module/controller/quest_edit.py:6-8 | the title becomes the new value and every other field is unchanged |
| QuestEdit.EditChapterSubtitle | module/controller/quest_edit.py:11-13 | the subtitle becomes the new value and every other field is unchanged |
| QuestEdit.EditChapterIcon | module/controller/quest_edit.py:16-18 | the icon becomes the new value and every other field is unchanged |
| QuestEdit.EditChapterTags | module/controller/quest_edit.py:21-23 | the tags become the new list and every other field is unchanged |
| QuestEdit.AddQuestToChapter | module/controller/quest_edit.py:26-29 | the quests are the old quests followed by the new one; nothing else changes |
| QuestEdit.RemoveQuestFromChapter | module/controller/quest_edit.py:32-35 | the new quest list is `RemoveKey` of the old one, i.e. the quests kept are exactly those whose id differs in their original order; an absent id is a no-op, and nothing else changes |
| QuestEdit.EditQuestInChapter | module/controller/quest_edit.py:38-41 | the length is kept, every quest with the id is replaced and every other quest is unchanged |
| QuestEdit.EditQuestPosition | module/controller/quest_edit.py:44-46 | only `x` and `y` change |
| QuestEdit.AddTaskToQuest | module/controller/quest_edit.py:49-52 | the tasks are the old tasks followed by the new one; the rewards and all other fields are unchanged |
| QuestEdit.RemoveTaskFromQuest | module/controller/quest_edit.py:55-58 | the new task list is `RemoveKey` of the old one: the tasks kept are exactly those whose id differs, in their original order; nothing else changes |
| QuestEdit.EditTaskInQuest | module/controller/quest_edit.py:61-64 | every task with the id is replaced, the others and the length are kept; nothing else changes |
| QuestEdit.AddRewardToQuest | module/controller/quest_edit.py:67-70 | the rewards are the old rewards followed by the new one; the tasks and all other fields are unchanged |
| QuestEdit.RemoveRewardFromQuest | module/controller/quest_edit.py:73-76 | the new reward list is `RemoveKey` of the old one: the rewards kept are exactly those whose id differs, in their original order; nothing else changes |
| QuestEdit.EditRewardInQuest | module/controller/quest_edit.py:79-82 | every reward with the id is replaced, the others and the length are kept; nothing else changes |
| QuestEdit.CreateTask | module/controller/quest_edit.py:85-87 | a keyword argument that repeats a named one is an error; the task has the given id and type; each optional field reads as the keyword arguments give it, absent ones at their defaults |
| QuestEdit.CreateTaskAccepted | module/controller/quest_edit.py:85-87 | the call returns a task exactly when no keyword repeats a named argument and its fields are the arguments and the keyword arguments |
| QuestEdit.CreateReward | module/controller/quest_edit.py:90-92 | the same as `CreateTask`, for a reward |
| QuestEdit.CreateRewardAccepted | module/controller/quest_edit.py:90-92 | the same as `CreateTaskAccepted`, for a reward |
| QuestEdit.CreateQuest | module/controller/quest_edit.py:95-97 | a repeated argument is an error; the quest has the given id, `x` and `y`; its lists and six flags read as the keyword arguments give them, absent ones at their defaults |
| QuestEdit.CreateQuestAccepted | module/controller/quest_edit.py:95-97 | the call returns a quest exactly when no keyword repeats a named argument and its fields are the arguments and the keyword arguments |
| QuestEdit.CreateChapter | module/controller/quest_edit.py:100-102 | a repeated argument is an error; the chapter has the given id, filename, group and order index; its fifteen optional fields read as the keyword arguments give them, absent ones at their defaults |
| QuestEdit.CreateChapterAccepted | module/controller/quest_edit.py:100-102 | the call returns a chapter exactly when no keyword repeats a named argument and its fields are the arguments and the keyword arguments |
| QuestEdit.AddThenRemoveQuest | module/controller/quest_edit.py:26-35 | adding a quest and then removing its id equals removing that id from the original chapter |
| QuestEdit.RemoveQuestIdempotent | module/controller/quest_edit.py:32-35 | removing an id twice is removing it once |
| QuestEdit.RemoveQuestCount | module/controller/quest_edit.py:32-35 | the quest count drops by exactly the number of quests with that id |
| QuestEdit.RemoveAfterEditQuest | module/controller/quest_edit.py:32-41 | replacing a quest by one with the same id and then removing the id equals removing it directly |
| QuestEdit.AddQuestKeepsUnique | module/controller/quest_edit.py:26-29 | adding a quest keeps quest ids unique exactly when the new id is fresh |
| QuestEdit.RemoveQuestKeepsUnique | module/controller/quest_edit.py:32-35 | removal keeps quest ids unique |
| QuestEdit.EditQuestKeepsIds | module/controller/quest_edit.py:38-41 | replacing by a quest with the same id keeps the id sequence, and so keeps ids unique |
| QuestEdit.AddThenRemoveTask | module/controller/quest_edit.py:49-58 | adding a task and then removing its id equals removing that id from the original quest |
| QuestEdit.RemoveTaskIdempotent | module/controller/quest_edit.py:55-58 | removing a task id twice is removing it once |
| QuestEdit.RemoveAbsentTask | module/controller/quest_edit.py:55-58 | removing an id no task has returns the quest unchanged |
| QuestEdit.RemoveAfterEditTask | module/controller/quest_edit.py:55-64 | replacing a task by one with the same id and then removing the id equals removing it directly |
| QuestEdit.AddTaskKeepsUnique | module/controller/quest_edit.py:49-52 | adding a task keeps task ids unique exactly when the new id is fresh |
| QuestEdit.AddThenRemoveReward | module/controller/quest_edit.py:67-76 | adding a reward and then removing its id equals removing that id from the original quest |
| QuestEdit.RemoveRewardIdempotent | module/controller/quest_edit.py:73-76 | removing a reward id twice is removing it once |
| QuestEdit.RemoveAbsentReward | module/controller/quest_edit.py:73-76 | removing an id no reward has returns the quest unchanged |
| QuestEdit.RemoveAfterEditReward | module/controller/quest_edit.py:73-82 | replacing a reward by one with the same id and then removing the id equals removing it directly |
| QuestEdit.AddRewardKeepsUnique | module/controller/quest_edit.py:67-70 | adding a reward keeps reward ids unique exactly when the new id is fresh |
| KeyedLists.RemoveKey | module/controller/quest_edit.py:33 | the filter keeps exactly the elements whose key differs, and adds none |
| KeyedLists.ReplaceKey | module/controller/quest_edit.py:39 | the map replaces exactly the elements whose key matches and keeps the length |
| KeyedLists.RemoveKeyAppend | module/controller/quest_edit.py:33 | filtering distributes over concatenation, so the order of kept elements is preserved |
| KeyedLists.RemoveKeyCount | module/controller/quest_edit.py:33 | the filter removes exactly as many elements as carry the key |
| KeyedLists.RemoveKeyKeepsUnique | module/controller/quest_edit.py:33 | filtering never creates duplicate keys |
| KeyedLists.RemoveAfterReplace | module/controller/quest_edit.py:33-39 | filtering after replacing by an element with the same key equals filtering alone |
| KeyedLists.AppendKeepsUnique | module/controller/quest_edit.py:27 | appending keeps keys unique exactly when the new key is fresh |
| FtbLoader.PathJoin | module/controller/ftb_loader.py:41 | a joined path ends with its second part and starts with its first unless the second is absolute, which replaces it |
| FtbLoader.AnySnbt | module/controller/ftb_loader.py:26 | the `any` over the listing holds exactly when some entry name ends in ".snbt" |
| FtbLoader.IsValidChaptersDir | module/controller/ftb_loader.py:20-31 | a path is accepted exactly when it is a directory that can be listed and some entry ends in ".snbt"; a listing error refuses it |
| FtbLoader.IsExit | module/controller/ftb_loader.py:65 | an answer quits exactly when it is "exit" with each letter in either case |
| FtbLoader.PromptOutcome | module/controller/ftb_loader.py:57-73 | a path returned by the prompt loop is a valid chapters directory and is not "exit" |
| FtbLoader.PromptStep | module/controller/ftb_loader.py:63-73 | one iteration: the stripped answer quits if it is "exit" in any case, is returned if valid, and otherwise the loop goes on |
| FtbLoader.FirstDecisive | module/controller/ftb_loader.py:63-70 | the index found is the first answer that is "exit" or a valid directory |
| FtbLoader.PromptOutcomeIsFirstDecisive | module/controller/ftb_loader.py:57-73 | the prompt loop ends at the first decisive answer: "exit" quits, a valid path is returned, and with none the input runs out |
| FtbLoader.Discover | module/controller/ftb_loader.py:33-73 | a directory found by the search is always a valid chapters directory |
| FtbLoader.FindChaptersDirectory | module/controller/ftb_loader.py:33-73 | the search tries the working-directory candidate, then the script-directory candidate, then the prompt, and returns what `Discover` specifies |
| FtbLoader.DiscoverOrder | module/controller/ftb_loader.py:41-73 | a valid working-directory candidate always wins; otherwise a valid script-directory candidate wins; the search quits exactly when neither candidate is valid and the first decisive answer is "exit" |
| FtbLoader.SnbtFilesMembers | module/controller/ftb_loader.py:86-87 | the filter keeps exactly the listed names ending in ".snbt" |
| FtbLoader.SnbtFilesAppend | module/controller/ftb_loader.py:86-87 | the filter distributes over concatenation, so listing order is kept |
| FtbLoader.ReadAllPrefix | module/controller/ftb_loader.py:84-100 | what is read is a prefix of the files, each paired with what it loaded, and reading stops only at a file that failed |
| FtbLoader.ReadAllAppend | module/controller/ftb_loader.py:84-100 | reading continues past a list read in full and stops inside a list that failed |
| FtbLoader.LoadChapterData | module/controller/ftb_loader.py:78-102 | the loop assigns each `.snbt` file it reads under its name, stops at the first failure, and returns what `LoadSpec` specifies; an unlistable directory gives an empty dict |
| FtbLoader.LoadSpec | module/controller/ftb_loader.py:84-102 | a directory that is missing or cannot be listed loads nothing, and every loaded key is a listed name ending in ".snbt" |
| FtbLoader.ReadKeysAreSnbt | module/controller/ftb_loader.py:86-93 | every key the loading loop assigns is a listed name ending in ".snbt" |
| FtbLoader.LoadAllRead | module/controller/ftb_loader.py:86-93 | when every `.snbt` file reads, the keys are exactly the `.snbt` names in listing order, so other files are excluded |
| FtbLoader.ReadAllLoadsAll | module/controller/ftb_loader.py:86-93 | when every file reads, nothing is skipped |
| FtbLoader.SnbtFilesDistinct | module/controller/ftb_loader.py:86-87 | filtering a listing without repeats gives names without repeats |
| FtbLoader.ValidDirLoads | module/controller/ftb_loader.py:20-31 | an accepted directory whose files all read loads at least one entry |
| FtbLoader.ChapterKey | module/controller/ftb_loader.py:110 | the key is never longer than the file name, and the key of `stem + ".snbt"` is the stem when ".snbt" occurs nowhere else |
| FtbLoader.ChapterKeyDropsFirst | module/controller/ftb_loader.py:110 | for any name `a + ".snbt" + b` where no ".snbt" starts inside `a`, the key is `a` followed by the key of `b`: every occurrence is removed, scanning left to right, not only the suffix |
| FtbLoader.ChapterKeyNoSnbt | module/controller/ftb_loader.py:110 | a name in which ".snbt" occurs nowhere is its own key |
| FtbLoader.ChapterKeysCollide | module/controller/ftb_loader.py:110 | every occurrence of ".snbt" is removed, so "a.snbt" and "a.snbt.snbt" get the same key |
| FtbLoader.ParseChapters | module/controller/ftb_loader.py:104-122 | the loop assigns each valid chapter under its key in order, skips the invalid ones, and returns what `ParseAll` specifies |
| FtbLoader.ParseAll | module/controller/ftb_loader.py:104-122 | the result has at most as many entries as the input |
| FtbLoader.ParseAllSnoc | module/controller/ftb_loader.py:108-120 | parsing one more entry is one more loop step |
| FtbLoader.ParseAllUnique | module/controller/ftb_loader.py:113 | the parsed dictionary never has two entries for one key |
| FtbLoader.ParseAllKeys | module/controller/ftb_loader.py:108-120 | a key is in the result exactly when some input entry with that key validates |
| FtbLoader.ParseAllValue | module/controller/ftb_loader.py:108-120 | a valid entry that no later valid entry with the same key overrides gives the value under its key |
| FtbLoader.ParseSkipsInvalid | module/controller/ftb_loader.py:111-120 | an entry that fails validation leaves the result as if it were absent |
| FtbLoader.LoadAndParseAll | module/controller/ftb_loader.py:124-138 | the pipeline is the search, then the load, then the parse; an empty load gives an empty result; quitting at the prompt ends the run |
| FtbLoader.LoadAndParseSpec | module/controller/ftb_loader.py:124-138 | the run ends at the prompt exactly when the search does; otherwise the chapters come from the directory found, at most one per loaded file, never two under one key |
| FtbLoader.LoadAndParseKeys | module/controller/ftb_loader.py:124-138 | every chapter key comes from a file loaded from the directory found that validates, and every such file yields its key |
| Navigation.PlaceOf | module/navigation/NavigationState.py:27-37 | a depth has a level exactly when it is between 1 and 4 |
| Navigation.DepthOf | module/navigation/NavigationState.py:27-37 | a level is shown at a depth between 1 and 4 (a helper with no source counterpart, the inverse of `get_place`) |
| Navigation.PlaceDepthInverse | module/navigation/NavigationState.py:27-37 | the depth-to-level mapping of `get_place` is one-to-one on chapters, quests, tasks and rewards |
| Navigation.Pieces | module/navigation/NavigationState.py:41-49 | a `go` argument always stands for at least one name |
| Navigation.GreaterPath | module/navigation/NavigationState.py:41-42 | a `>` path gives at least two pieces without `>`, and joining them gives the stripped argument back |
| Navigation.SlashPath | module/navigation/NavigationState.py:43-44 | a `/` path without `>` gives at least two pieces holding neither separator, and joining them gives the stripped argument back |
| Navigation.PlainName | module/navigation/NavigationState.py:46-49 | an argument without separators is one piece, unstripped |
| Navigation.NavigationState.constructor | module/navigation/NavigationState.py:10-13 | a fresh breadcrumb is the working-directory name alone, at the chapter level |
| Navigation.NavigationState.GetPlace | module/navigation/NavigationState.py:27-37 | the level is present exactly at depths 1 to 4, and each level is shown at the current depth only |
| Navigation.NavigationState.Back | module/navigation/NavigationState.py:17-18 | the last name is dropped; an empty breadcrumb is the error case |
| Navigation.NavigationState.Reset | module/navigation/NavigationState.py:20-21 | the breadcrumb becomes the working-directory name alone, whatever it was |
| Navigation.NavigationState.Go | module/navigation/NavigationState.py:39-49 | the pieces of the argument are appended in order, so the breadcrumb grows |
| Navigation.GoThenBack | module/navigation/NavigationState.py:17-18 | going into a single name and then back restores the breadcrumb |
| Text.StripIsTrimmedSlice | module/controller/ftb_loader.py:63 | `strip` returns a slice of its input with only whitespace before and after it, not starting or ending with whitespace |
| Text.JoinSplit | module/navigation/NavigationState.py:42 | joining the pieces of a split gives the string back |
| Text.SplitJoin | module/navigation/NavigationState.py:42 | splitting a join of separator-free pieces gives the pieces back |
| Text.RemoveAllFirst | module/controller/ftb_loader.py:110 | `replace(pat, "")` drops the first occurrence of `pat`, keeps everything before it, and treats the text after it alike: `RemoveAll(a + pat + b, pat) == a + RemoveAll(b, pat)` when no occurrence starts inside `a` |
| Text.RemoveAllAt | module/controller/ftb_loader.py:110 | the same law for an occurrence at position `i` of a string with no earlier occurrence |
| Text.RemoveAllAbsent | module/controller/ftb_loader.py:110 | a string without any occurrence of `pat` is returned unchanged |
| Text.RemoveAllFinal | module/controller/ftb_loader.py:110 | removing ".snbt" from a name that holds it only at its end gives the stem |
| Text.LowerAscii | module/controller/ftb_loader.py:65 | lower-casing keeps the length and lower-cases each letter in place |
| Dicts.GetPut | module/controller/ftb_loader.py:93 | after an assignment the key maps to the new value and every other key is unchanged |
| Dicts.PutKeepsUnique | module/controller/ftb_loader.py:93 | an assignment never creates a second entry for a key |
| Dicts.FromDistinctPairs | module/controller/ftb_loader.py:93 | assigning pairs with distinct keys gives exactly those pairs, in order |
| Dicts.FromPairsKeys | module/controller/ftb_loader.py:113 | the keys of the built dictionary are the keys assigned |

## Left out

- File I/O, the working directory and the command line are parameters. `os.listdir`, `os.path.isdir`, `open` and the external SNBT parser are the `FileSystem` and `Reader` functions. `os.getcwd()` and `sys.argv[0]` are the strings `cwd` and `scriptDir`. `input()` is a finite sequence of answers.
- FtbLoader.FindChaptersDirectory: the source loops forever while answers keep coming. Here the answers run out, which ends the search with `EndOfInput`, as `input()` raising EOFError would. `sys.exit` becomes the `Quit` and `Exited` results.
- FtbLoader.LoadChapterData: every failure caught by the three `except` clauses is one case: the `Reader` returns None, or the directory is not listable. A listing that fails halfway through is not modelled.
- FtbLoader.PathJoin: POSIX joining only; Windows drive letters and back-slashes are not modelled.
- All console output (`print`) is left out, and so is `NavigationState.get_status`, which only prints the breadcrumb.
- Pydantic's coercions are not modelled. Validation is strict typing: a string field takes a string, a flag a boolean and `order_index` an integer. The one exception is `x`/`y`, which accept an integer or a float, so that quest files written with whole numbers load. Unknown keys are ignored, as pydantic does by default.
- Pydantic's error messages are not reproduced. An error is a short text naming the first failing field, and only the first failure is reported.
- Coordinates are an opaque `real`: no floating-point rounding is modelled.
- `model_copy` makes shallow copies, so in Python an edited copy shares its nested lists with the original. Dafny values are immutable, so this aliasing is not modelled.
- The Python field `type` of `QuestComponent` is named `kind`.
- `module/quest_models.py` duplicates `module/model/quest_models.py` line for line and is modelled once.
- The normalisation and localisation stage that `cli.py` imports from the loader is not part of this model: it is not in these source files.
- The create_* functions take their keyword arguments as a map of raw values. A keyword that repeats a named argument is Python's `TypeError`, and here it is an `Err` result.
- FtbLoader.LoadAllRead: it requires the listing to hold no name twice, which any directory listing satisfies.
- Navigation.NavigationState.Back: popping an empty breadcrumb raises `IndexError` in the source. Here it returns `false` and leaves the breadcrumb alone.
- Navigation.NavigationState.constructor: `cwd_name` is a class attribute computed at import from `os.getcwd()`. Here it is a constructor argument.
