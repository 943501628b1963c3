/** The copy-on-write editor: each operation returns a modified copy of a
    chapter or quest and leaves its input as it was (values here are
    immutable, so "the input is unchanged" holds by construction; what the
    contracts state is how the copy relates to the input). */
module QuestEdit {
  import opened Wrappers
  import opened QuestModels
  import KeyedLists

  // ---------------------------------------------------------------------------
  // Chapter attributes
  // ---------------------------------------------------------------------------

  /** `edit_chapter_title` */
  function EditChapterTitle(chapter: Chapter, newTitle: string): (r: Chapter)
    ensures r.title == Some(newTitle)
    ensures r.(title := chapter.title) == chapter
  {
    chapter.(title := Some(newTitle))
  }

  /** `edit_chapter_subtitle` */
  function EditChapterSubtitle(chapter: Chapter, newSubtitle: string): (r: Chapter)
    ensures r.subtitle == Some(newSubtitle)
    ensures r.(subtitle := chapter.subtitle) == chapter
  {
    chapter.(subtitle := Some(newSubtitle))
  }

  /** `edit_chapter_icon`: the icon may be cleared with None. */
  function EditChapterIcon(chapter: Chapter, newIcon: Option<Item>): (r: Chapter)
    ensures r.icon == newIcon
    ensures r.(icon := chapter.icon) == chapter
  {
    chapter.(icon := newIcon)
  }

  /** `edit_chapter_tags` */
  function EditChapterTags(chapter: Chapter, newTags: seq<string>): (r: Chapter)
    ensures r.tags == newTags
    ensures r.(tags := chapter.tags) == chapter
  {
    chapter.(tags := newTags)
  }

  // ---------------------------------------------------------------------------
  // Quests within a chapter
  // ---------------------------------------------------------------------------

  /** `add_quest_to_chapter`: one more quest, last; the earlier ones in their
      order. */
  function AddQuestToChapter(chapter: Chapter, quest: Quest): (r: Chapter)
    ensures |r.quests| == |chapter.quests| + 1
    ensures r.quests[..|chapter.quests|] == chapter.quests && r.quests[|chapter.quests|] == quest
    ensures r.(quests := chapter.quests) == chapter
  {
    chapter.(quests := chapter.quests + [quest])
  }

  /** `remove_quest_from_chapter`: every quest with id `questId` goes, the
      others stay; an unknown id changes nothing. */
  function RemoveQuestFromChapter(chapter: Chapter, questId: string): (r: Chapter)
    ensures forall i :: 0 <= i < |r.quests| ==> r.quests[i] in chapter.quests && r.quests[i].id != questId
    ensures forall i :: 0 <= i < |chapter.quests| && chapter.quests[i].id != questId ==> chapter.quests[i] in r.quests
    ensures questId !in KeyedLists.KeysOf(chapter.quests, QuestId) ==> r == chapter
    ensures r.(quests := chapter.quests) == chapter
    ensures r.quests == KeyedLists.RemoveKey(chapter.quests, QuestId, questId)
  {
    if questId !in KeyedLists.KeysOf(chapter.quests, QuestId) then
      KeyedLists.RemoveKeyAbsent(chapter.quests, QuestId, questId);
      chapter.(quests := KeyedLists.RemoveKey(chapter.quests, QuestId, questId))
    else
      chapter.(quests := KeyedLists.RemoveKey(chapter.quests, QuestId, questId))
  }

  /** `edit_quest_in_chapter`: same length and order; every quest with id
      `questId` is replaced by `updated`, every other quest is kept. */
  function EditQuestInChapter(chapter: Chapter, questId: string, updated: Quest): (r: Chapter)
    ensures |r.quests| == |chapter.quests|
    ensures forall i :: 0 <= i < |chapter.quests| ==>
      r.quests[i] == if chapter.quests[i].id == questId then updated else chapter.quests[i]
    ensures r.(quests := chapter.quests) == chapter
  {
    chapter.(quests := KeyedLists.ReplaceKey(chapter.quests, QuestId, questId, updated))
  }

  // ---------------------------------------------------------------------------
  // Quest attributes, tasks and rewards
  // ---------------------------------------------------------------------------

  /** `edit_quest_position`: only x and y change. */
  function EditQuestPosition(quest: Quest, newX: Coord, newY: Coord): (r: Quest)
    ensures r.x == newX && r.y == newY
    ensures r.(x := quest.x, y := quest.y) == quest
  {
    quest.(x := newX, y := newY)
  }

  /** `add_task_to_quest` */
  function AddTaskToQuest(quest: Quest, task: Task): (r: Quest)
    ensures |r.tasks| == |quest.tasks| + 1
    ensures r.tasks[..|quest.tasks|] == quest.tasks && r.tasks[|quest.tasks|] == task
    ensures r.(tasks := quest.tasks) == quest
  {
    quest.(tasks := quest.tasks + [task])
  }

  /** `remove_task_from_quest` */
  function RemoveTaskFromQuest(quest: Quest, taskId: string): (r: Quest)
    ensures forall i :: 0 <= i < |r.tasks| ==> r.tasks[i] in quest.tasks && TaskId(r.tasks[i]) != taskId
    ensures forall i :: 0 <= i < |quest.tasks| && TaskId(quest.tasks[i]) != taskId ==> quest.tasks[i] in r.tasks
    ensures r.(tasks := quest.tasks) == quest
    ensures r.tasks == KeyedLists.RemoveKey(quest.tasks, TaskId, taskId)
  {
    quest.(tasks := KeyedLists.RemoveKey(quest.tasks, TaskId, taskId))
  }

  /** `edit_task_in_quest` */
  function EditTaskInQuest(quest: Quest, taskId: string, updated: Task): (r: Quest)
    ensures |r.tasks| == |quest.tasks|
    ensures forall i :: 0 <= i < |quest.tasks| ==>
      r.tasks[i] == if TaskId(quest.tasks[i]) == taskId then updated else quest.tasks[i]
    ensures r.(tasks := quest.tasks) == quest
  {
    quest.(tasks := KeyedLists.ReplaceKey(quest.tasks, TaskId, taskId, updated))
  }

  /** `add_reward_to_quest` */
  function AddRewardToQuest(quest: Quest, reward: Reward): (r: Quest)
    ensures |r.rewards| == |quest.rewards| + 1
    ensures r.rewards[..|quest.rewards|] == quest.rewards && r.rewards[|quest.rewards|] == reward
    ensures r.(rewards := quest.rewards) == quest
  {
    quest.(rewards := quest.rewards + [reward])
  }

  /** `remove_reward_from_quest` */
  function RemoveRewardFromQuest(quest: Quest, rewardId: string): (r: Quest)
    ensures forall i :: 0 <= i < |r.rewards| ==> r.rewards[i] in quest.rewards && RewardId(r.rewards[i]) != rewardId
    ensures forall i :: 0 <= i < |quest.rewards| && RewardId(quest.rewards[i]) != rewardId ==> quest.rewards[i] in r.rewards
    ensures r.(rewards := quest.rewards) == quest
    ensures r.rewards == KeyedLists.RemoveKey(quest.rewards, RewardId, rewardId)
  {
    quest.(rewards := KeyedLists.RemoveKey(quest.rewards, RewardId, rewardId))
  }

  /** `edit_reward_in_quest` */
  function EditRewardInQuest(quest: Quest, rewardId: string, updated: Reward): (r: Quest)
    ensures |r.rewards| == |quest.rewards|
    ensures forall i :: 0 <= i < |quest.rewards| ==>
      r.rewards[i] == if RewardId(quest.rewards[i]) == rewardId then updated else quest.rewards[i]
    ensures r.(rewards := quest.rewards) == quest
  {
    quest.(rewards := KeyedLists.ReplaceKey(quest.rewards, RewardId, rewardId, updated))
  }

  // ---------------------------------------------------------------------------
  // Constructors: the required fields come from the arguments, the keyword
  // arguments go through validation like any other input, and a keyword that
  // repeats a named argument is a TypeError.
  // ---------------------------------------------------------------------------

  /** `create_task(task_id, task_type, **kwargs)` */
  function CreateTask(taskId: string, taskType: string, kwargs: Fields): (r: Result<Task>)
    ensures ("id" in kwargs || "type" in kwargs || "task_id" in kwargs || "task_type" in kwargs) ==> r.Err?
    ensures r.Ok? ==> r.value.component.id == taskId && r.value.component.kind == taskType
    ensures kwargs == map[] ==> r == Ok(Task(DefaultComponent(taskId, taskType)))
    ensures r.Ok? ==> ComponentOptionalsAre(kwargs, r.value.component)
  {
    if "id" in kwargs || "type" in kwargs || "task_id" in kwargs || "task_type" in kwargs then
      Err("create_task: multiple values for a keyword argument")
    else
      var fields := kwargs + ComponentRequired(taskId, taskType);
      assert kwargs == map[] ==> fields == ComponentRequired(taskId, taskType);
      MinimalComponent(taskId, taskType);
      var c :- ValidateComponent(RMap(fields));
      ComponentOptionalsKept(kwargs, taskId, taskType, c);
      Ok(Task(c))
  }

  /** `create_reward(reward_id, reward_type, **kwargs)` */
  function CreateReward(rewardId: string, rewardType: string, kwargs: Fields): (r: Result<Reward>)
    ensures ("id" in kwargs || "type" in kwargs || "reward_id" in kwargs || "reward_type" in kwargs) ==> r.Err?
    ensures r.Ok? ==> r.value.component.id == rewardId && r.value.component.kind == rewardType
    ensures kwargs == map[] ==> r == Ok(Reward(DefaultComponent(rewardId, rewardType)))
    ensures r.Ok? ==> ComponentOptionalsAre(kwargs, r.value.component)
  {
    if "id" in kwargs || "type" in kwargs || "reward_id" in kwargs || "reward_type" in kwargs then
      Err("create_reward: multiple values for a keyword argument")
    else
      var fields := kwargs + ComponentRequired(rewardId, rewardType);
      assert kwargs == map[] ==> fields == ComponentRequired(rewardId, rewardType);
      MinimalComponent(rewardId, rewardType);
      var c :- ValidateComponent(RMap(fields));
      ComponentOptionalsKept(kwargs, rewardId, rewardType, c);
      Ok(Reward(c))
  }

  /** `create_quest(quest_id, x, y, **kwargs)` */
  function CreateQuest(questId: string, x: Coord, y: Coord, kwargs: Fields): (r: Result<Quest>)
    ensures ("id" in kwargs || "x" in kwargs || "y" in kwargs || "quest_id" in kwargs) ==> r.Err?
    ensures r.Ok? ==> r.value.id == questId && r.value.x == x && r.value.y == y
    ensures kwargs == map[] ==> r == Ok(DefaultQuest(questId, x, y))
    ensures r.Ok? ==> QuestOptionalsAre(kwargs, r.value)
  {
    if "id" in kwargs || "x" in kwargs || "y" in kwargs || "quest_id" in kwargs then
      Err("create_quest: multiple values for a keyword argument")
    else
      var fields := kwargs + QuestRequired(questId, x, y);
      assert kwargs == map[] ==> fields == QuestRequired(questId, x, y);
      MinimalQuest(questId, x, y);
      var q :- ValidateQuest(RMap(fields));
      QuestOptionalsKept(kwargs, questId, x, y, q);
      Ok(q)
  }

  /** `create_chapter(chapter_id, filename, group, order_index, **kwargs)` */
  function CreateChapter(chapterId: string, filename: string, group: string, orderIndex: int, kwargs: Fields)
    : (r: Result<Chapter>)
    ensures ("id" in kwargs || "filename" in kwargs || "group" in kwargs || "order_index" in kwargs
             || "chapter_id" in kwargs) ==> r.Err?
    ensures r.Ok? ==> r.value.id == chapterId && r.value.filename == filename
                      && r.value.group == group && r.value.orderIndex == orderIndex
    ensures kwargs == map[] ==> r == Ok(DefaultChapter(chapterId, filename, group, orderIndex))
    ensures r.Ok? ==> ChapterOptionalsAre(kwargs, r.value)
  {
    if "id" in kwargs || "filename" in kwargs || "group" in kwargs || "order_index" in kwargs
       || "chapter_id" in kwargs then
      Err("create_chapter: multiple values for a keyword argument")
    else
      var fields := kwargs + ChapterRequired(chapterId, filename, group, orderIndex);
      assert kwargs == map[] ==> fields == ChapterRequired(chapterId, filename, group, orderIndex);
      MinimalChapter(chapterId, filename, group, orderIndex);
      ChapterRequiredHolds(kwargs, chapterId, filename, group, orderIndex);
      var c :- ValidateChapter(RMap(fields));
      ChapterOptionalsKept(kwargs, chapterId, filename, group, orderIndex, c);
      Ok(c)
  }

  // Conversely, a constructor returns exactly the value whose required fields
  // are the arguments and whose optional fields read as the keyword arguments.

  lemma CreateTaskAccepted(taskId: string, taskType: string, kwargs: Fields, c: QuestComponent)
    ensures CreateTask(taskId, taskType, kwargs) == Ok(Task(c))
        <==> && !("id" in kwargs || "type" in kwargs || "task_id" in kwargs || "task_type" in kwargs)
             && c.id == taskId && c.kind == taskType && ComponentOptionalsAre(kwargs, c)
  {
    var fields := kwargs + ComponentRequired(taskId, taskType);
    ComponentOptionalsKept(kwargs, taskId, taskType, c);
    ComponentAccepted(fields, c);
  }

  lemma CreateRewardAccepted(rewardId: string, rewardType: string, kwargs: Fields, c: QuestComponent)
    ensures CreateReward(rewardId, rewardType, kwargs) == Ok(Reward(c))
        <==> && !("id" in kwargs || "type" in kwargs || "reward_id" in kwargs || "reward_type" in kwargs)
             && c.id == rewardId && c.kind == rewardType && ComponentOptionalsAre(kwargs, c)
  {
    var fields := kwargs + ComponentRequired(rewardId, rewardType);
    ComponentOptionalsKept(kwargs, rewardId, rewardType, c);
    ComponentAccepted(fields, c);
  }

  lemma CreateQuestAccepted(questId: string, x: Coord, y: Coord, kwargs: Fields, q: Quest)
    ensures CreateQuest(questId, x, y, kwargs) == Ok(q)
        <==> && !("id" in kwargs || "x" in kwargs || "y" in kwargs || "quest_id" in kwargs)
             && q.id == questId && q.x == x && q.y == y && QuestOptionalsAre(kwargs, q)
  {
    var fields := kwargs + QuestRequired(questId, x, y);
    QuestOptionalsKept(kwargs, questId, x, y, q);
    QuestAccepted(fields, q);
  }

  lemma CreateChapterAccepted(chapterId: string, filename: string, group: string, orderIndex: int,
                              kwargs: Fields, c: Chapter)
    ensures CreateChapter(chapterId, filename, group, orderIndex, kwargs) == Ok(c)
        <==> && !("id" in kwargs || "filename" in kwargs || "group" in kwargs || "order_index" in kwargs
                  || "chapter_id" in kwargs)
             && c.id == chapterId && c.filename == filename && c.group == group && c.orderIndex == orderIndex
             && ChapterOptionalsAre(kwargs, c)
  {
    var fields := kwargs + ChapterRequired(chapterId, filename, group, orderIndex);
    ChapterRequiredHolds(kwargs, chapterId, filename, group, orderIndex);
    ChapterOptionalsKept(kwargs, chapterId, filename, group, orderIndex, c);
    ChapterAccepted(fields, c);
  }

  // ---------------------------------------------------------------------------
  // Laws relating the list edits
  // ---------------------------------------------------------------------------

  /** Quest ids are unique within the chapter. */
  ghost predicate UniqueQuestIds(chapter: Chapter) {
    KeyedLists.UniqueKeys(chapter.quests, QuestId)
  }

  /** Removing a quest just added removes it and whatever else had its id. */
  lemma AddThenRemoveQuest(chapter: Chapter, quest: Quest)
    ensures RemoveQuestFromChapter(AddQuestToChapter(chapter, quest), quest.id)
         == RemoveQuestFromChapter(chapter, quest.id)
  {
    KeyedLists.RemoveAfterAppend(chapter.quests, quest, QuestId);
  }

  /** Removing the same id twice is removing it once. */
  lemma RemoveQuestIdempotent(chapter: Chapter, questId: string)
    ensures RemoveQuestFromChapter(RemoveQuestFromChapter(chapter, questId), questId)
         == RemoveQuestFromChapter(chapter, questId)
  {
    KeyedLists.RemoveKeyIdempotent(chapter.quests, QuestId, questId);
  }

  /** As many quests go as carry the id. */
  lemma RemoveQuestCount(chapter: Chapter, questId: string)
    ensures |RemoveQuestFromChapter(chapter, questId).quests|
         == |chapter.quests| - multiset(KeyedLists.KeysOf(chapter.quests, QuestId))[questId]
  {
    KeyedLists.RemoveKeyCount(chapter.quests, QuestId, questId);
  }

  /** Editing a quest (keeping its id) and then removing it is removing it. */
  lemma RemoveAfterEditQuest(chapter: Chapter, questId: string, updated: Quest)
    requires updated.id == questId
    ensures RemoveQuestFromChapter(EditQuestInChapter(chapter, questId, updated), questId)
         == RemoveQuestFromChapter(chapter, questId)
  {
    KeyedLists.RemoveAfterReplace(chapter.quests, QuestId, questId, updated);
  }

  /** Adding keeps quest ids unique exactly when the new id is fresh. */
  lemma AddQuestKeepsUnique(chapter: Chapter, quest: Quest)
    requires UniqueQuestIds(chapter)
    ensures UniqueQuestIds(AddQuestToChapter(chapter, quest))
        <==> quest.id !in KeyedLists.KeysOf(chapter.quests, QuestId)
  {
    KeyedLists.AppendKeepsUnique(chapter.quests, quest, QuestId);
  }

  /** Removing keeps quest ids unique. */
  lemma RemoveQuestKeepsUnique(chapter: Chapter, questId: string)
    requires UniqueQuestIds(chapter)
    ensures UniqueQuestIds(RemoveQuestFromChapter(chapter, questId))
  {
    KeyedLists.RemoveKeyKeepsUnique(chapter.quests, QuestId, questId);
  }

  /** An edit that keeps the quest's id keeps the chapter's ids, in order. */
  lemma EditQuestKeepsIds(chapter: Chapter, questId: string, updated: Quest)
    requires updated.id == questId
    ensures KeyedLists.KeysOf(EditQuestInChapter(chapter, questId, updated).quests, QuestId)
         == KeyedLists.KeysOf(chapter.quests, QuestId)
    ensures UniqueQuestIds(chapter) ==> UniqueQuestIds(EditQuestInChapter(chapter, questId, updated))
  {
    KeyedLists.ReplaceKeyKeepsKeys(chapter.quests, QuestId, questId, updated);
  }

  /** Removing a task just added. */
  lemma AddThenRemoveTask(quest: Quest, task: Task)
    ensures RemoveTaskFromQuest(AddTaskToQuest(quest, task), TaskId(task))
         == RemoveTaskFromQuest(quest, TaskId(task))
  {
    KeyedLists.RemoveAfterAppend(quest.tasks, task, TaskId);
  }

  /** Removing the same task id twice is removing it once. */
  lemma RemoveTaskIdempotent(quest: Quest, taskId: string)
    ensures RemoveTaskFromQuest(RemoveTaskFromQuest(quest, taskId), taskId)
         == RemoveTaskFromQuest(quest, taskId)
  {
    KeyedLists.RemoveKeyIdempotent(quest.tasks, TaskId, taskId);
  }

  /** An unknown task id changes nothing. */
  lemma RemoveAbsentTask(quest: Quest, taskId: string)
    requires taskId !in KeyedLists.KeysOf(quest.tasks, TaskId)
    ensures RemoveTaskFromQuest(quest, taskId) == quest
  {
    KeyedLists.RemoveKeyAbsent(quest.tasks, TaskId, taskId);
  }

  /** Editing a task (keeping its id) and then removing it is removing it. */
  lemma RemoveAfterEditTask(quest: Quest, taskId: string, updated: Task)
    requires TaskId(updated) == taskId
    ensures RemoveTaskFromQuest(EditTaskInQuest(quest, taskId, updated), taskId)
         == RemoveTaskFromQuest(quest, taskId)
  {
    KeyedLists.RemoveAfterReplace(quest.tasks, TaskId, taskId, updated);
  }

  /** Adding keeps task ids unique exactly when the new id is fresh. */
  lemma AddTaskKeepsUnique(quest: Quest, task: Task)
    requires KeyedLists.UniqueKeys(quest.tasks, TaskId)
    ensures KeyedLists.UniqueKeys(AddTaskToQuest(quest, task).tasks, TaskId)
        <==> TaskId(task) !in KeyedLists.KeysOf(quest.tasks, TaskId)
  {
    KeyedLists.AppendKeepsUnique(quest.tasks, task, TaskId);
  }

  /** Removing a reward just added. */
  lemma AddThenRemoveReward(quest: Quest, reward: Reward)
    ensures RemoveRewardFromQuest(AddRewardToQuest(quest, reward), RewardId(reward))
         == RemoveRewardFromQuest(quest, RewardId(reward))
  {
    KeyedLists.RemoveAfterAppend(quest.rewards, reward, RewardId);
  }

  /** Removing the same reward id twice is removing it once. */
  lemma RemoveRewardIdempotent(quest: Quest, rewardId: string)
    ensures RemoveRewardFromQuest(RemoveRewardFromQuest(quest, rewardId), rewardId)
         == RemoveRewardFromQuest(quest, rewardId)
  {
    KeyedLists.RemoveKeyIdempotent(quest.rewards, RewardId, rewardId);
  }

  /** An unknown reward id changes nothing. */
  lemma RemoveAbsentReward(quest: Quest, rewardId: string)
    requires rewardId !in KeyedLists.KeysOf(quest.rewards, RewardId)
    ensures RemoveRewardFromQuest(quest, rewardId) == quest
  {
    KeyedLists.RemoveKeyAbsent(quest.rewards, RewardId, rewardId);
  }

  /** Editing a reward (keeping its id) and then removing it is removing it. */
  lemma RemoveAfterEditReward(quest: Quest, rewardId: string, updated: Reward)
    requires RewardId(updated) == rewardId
    ensures RemoveRewardFromQuest(EditRewardInQuest(quest, rewardId, updated), rewardId)
         == RemoveRewardFromQuest(quest, rewardId)
  {
    KeyedLists.RemoveAfterReplace(quest.rewards, RewardId, rewardId, updated);
  }

  /** Adding keeps reward ids unique exactly when the new id is fresh. */
  lemma AddRewardKeepsUnique(quest: Quest, reward: Reward)
    requires KeyedLists.UniqueKeys(quest.rewards, RewardId)
    ensures KeyedLists.UniqueKeys(AddRewardToQuest(quest, reward).rewards, RewardId)
        <==> RewardId(reward) !in KeyedLists.KeysOf(quest.rewards, RewardId)
  {
    KeyedLists.AppendKeepsUnique(quest.rewards, reward, RewardId);
  }
}
