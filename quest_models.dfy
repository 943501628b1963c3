/** The entity schema: Item, QuestComponent (with its two kinds Task and
    Reward), Quest and Chapter, each with its required fields and documented
    defaults, and the validator that turns a generic parsed mapping into a
    typed entity (Pydantic's `model_validate`).

    A field declared `Optional[X] = d` holds `Option<X>`: absent from the
    input it is `Some(d)` (or `None` when `d` is None), an explicit null gives
    `None`.  A field declared `List[X]` defaults to the empty list and rejects
    null.  Keys the schema does not name are ignored. */
module QuestModels {
  import opened Wrappers

  /** A generic value as the text-format parser produces it. */
  datatype Raw =
    | RNull
    | RBool(b: bool)
    | RInt(i: int)
    | RFloat(f: real)
    | RStr(s: string)
    | RList(items: seq<Raw>)
    | RMap(fields: map<string, Raw>)

  type Fields = map<string, Raw>

  /** Canvas coordinates are only copied and compared, never computed with. */
  type Coord = real

  /** `Union[int, str]`: the variant the input had is kept, so "8L" stays a
      string and 8 an integer. */
  datatype Count = CountInt(n: int) | CountStr(s: string)

  datatype Item = Item(id: string, count: Option<int>, components: Option<Fields>)

  /** The shared shape of tasks and rewards; the source's field `type` is
      called `kind` here. */
  datatype QuestComponent = QuestComponent(
    id: string,
    kind: string,
    item: Option<Item>,
    advancement: Option<string>,
    optionalTask: Option<bool>,
    count: Option<Count>)

  /** Task and Reward have the same fields but are distinct types, so a
      quest's task list can hold no reward and vice versa. */
  datatype Task = Task(component: QuestComponent)
  datatype Reward = Reward(component: QuestComponent)

  datatype Quest = Quest(
    id: string,
    x: Coord,
    y: Coord,
    dependencies: seq<string>,
    tasks: seq<Task>,
    rewards: seq<Reward>,
    hideDetailsUntilStartable: Option<bool>,
    hideDependencyLines: Option<bool>,
    hideLockIcon: Option<bool>,
    hideTextUntilComplete: Option<bool>,
    hideUntilDepsComplete: Option<bool>,
    hideUntilDepsVisible: Option<bool>)

  datatype Chapter = Chapter(
    title: Option<string>,
    subtitle: Option<string>,
    id: string,
    icon: Option<Item>,
    filename: string,
    group: string,
    tags: seq<string>,
    orderIndex: int,
    quests: seq<Quest>,
    disableCompletionToast: Option<bool>,
    defaultQuestShape: Option<string>,
    defaultHideDependencyLines: Option<bool>,
    hideQuestDetailsUntilStartable: Option<bool>,
    hideQuestsUntilDepsVisible: Option<bool>,
    autofocusQuestId: Option<string>,
    defaultProgressionMode: Option<string>,
    defaultRepeatableQuest: Option<bool>,
    defaultItemTaskConsumeItems: Option<bool>,
    sequentialTaskCompletion: Option<bool>)

  function TaskId(t: Task): string { t.component.id }
  function RewardId(r: Reward): string { r.component.id }
  function QuestId(q: Quest): string { q.id }

  // ---------------------------------------------------------------------------
  // Records with every optional field at its default
  // ---------------------------------------------------------------------------

  function DefaultComponent(id: string, kind: string): QuestComponent {
    QuestComponent(id, kind, None, None, Some(false), None)
  }

  function DefaultQuest(id: string, x: Coord, y: Coord): Quest {
    Quest(id, x, y, [], [], [], Some(false), Some(false), Some(false), Some(false), Some(false), Some(false))
  }

  function DefaultChapter(id: string, filename: string, group: string, orderIndex: int): Chapter {
    Chapter(None, None, id, None, filename, group, [], orderIndex, [],
            Some(false), Some("circle"), Some(false), Some(false), Some(false),
            None, Some("linear"), Some(false), Some(false), Some(false))
  }

  // ---------------------------------------------------------------------------
  // What a successful validation promises about each kind of field
  // ---------------------------------------------------------------------------

  /** An `Optional[str]` field: the default when absent, else the input's value. */
  ghost predicate StrFieldIs(m: Fields, k: string, default: Option<string>, v: Option<string>) {
    if k !in m then v == default
    else (m[k] == RNull && v == None) || (m[k].RStr? && v == Some(m[k].s))
  }

  /** `m` holds `v` under `k`. */
  ghost predicate Holds(m: Fields, k: string, v: Raw) {
    k in m && m[k] == v
  }

  /** An `Optional[bool]` field: the default when absent, else the input's value. */
  ghost predicate BoolFieldIs(m: Fields, k: string, default: Option<bool>, v: Option<bool>) {
    if k !in m then v == default
    else (m[k] == RNull && v == None) || (m[k].RBool? && v == Some(m[k].b))
  }

  /** An `Optional[int]` field: the default when absent, else the input's value. */
  ghost predicate IntFieldIs(m: Fields, k: string, default: Option<int>, v: Option<int>) {
    if k !in m then v == default
    else (m[k] == RNull && v == None) || (m[k].RInt? && v == Some(m[k].i))
  }

  /** An `Optional[Union[int, str]] = None` field: None when absent, else the
      input's value in the variant it had. */
  ghost predicate CountFieldIs(m: Fields, k: string, v: Option<Count>) {
    if k !in m then v == None
    else
      (m[k] == RNull && v == None)
      || (m[k].RInt? && v == Some(CountInt(m[k].i)))
      || (m[k].RStr? && v == Some(CountStr(m[k].s)))
  }

  /** An `Optional[Dict[str, Any]] = None` field: None when absent, else the
      input's mapping as it is. */
  ghost predicate MapFieldIs(m: Fields, k: string, v: Option<Fields>) {
    if k !in m then v == None
    else (m[k] == RNull && v == None) || (m[k].RMap? && v == Some(m[k].fields))
  }

  /** A required `float` field: the input's number, an integer taken as the
      same real. */
  ghost predicate CoordFieldIs(m: Fields, k: string, v: Coord) {
    k in m && (m[k] == RFloat(v) || (m[k].RInt? && v == m[k].i as real))
  }

  /** An `Optional[Item] = None` field: None when absent or null, else the
      item the input value validates to. */
  ghost predicate ItemFieldIs(m: Fields, k: string, v: Option<Item>) {
    if k !in m || m[k] == RNull then v == None
    else v.Some? && ValidateItem(m[k]) == Ok(v.value)
  }

  /** A `List[X]` field: empty when absent, else a list whose elements
      `validate` accepts, giving `v`. */
  ghost predicate ListFieldIs<T>(m: Fields, k: string, validate: seq<Raw> -> Result<seq<T>>, v: seq<T>) {
    if k !in m then v == []
    else m[k].RList? && validate(m[k].items) == Ok(v)
  }

  // ---------------------------------------------------------------------------
  // What each entity's fields are, given the mapping it was validated from
  // ---------------------------------------------------------------------------

  ghost predicate ItemFieldsAre(m: Fields, i: Item) {
    && Holds(m, "id", RStr(i.id))
    && IntFieldIs(m, "count", Some(1), i.count)
    && MapFieldIs(m, "components", i.components)
  }

  /** The optional fields of a task or reward. */
  ghost predicate ComponentOptionalsAre(m: Fields, c: QuestComponent) {
    && ItemFieldIs(m, "item", c.item)
    && StrFieldIs(m, "advancement", None, c.advancement)
    && BoolFieldIs(m, "optional_task", Some(false), c.optionalTask)
    && CountFieldIs(m, "count", c.count)
  }

  ghost predicate ComponentFieldsAre(m: Fields, c: QuestComponent) {
    && Holds(m, "id", RStr(c.id))
    && Holds(m, "type", RStr(c.kind))
    && ComponentOptionalsAre(m, c)
  }

  /** The optional fields of a quest: three lists and six flags. */
  ghost predicate QuestOptionalsAre(m: Fields, q: Quest) {
    && ListFieldIs(m, "dependencies", ValidateStrings, q.dependencies)
    && ListFieldIs(m, "tasks", ValidateTasks, q.tasks)
    && ListFieldIs(m, "rewards", ValidateRewards, q.rewards)
    && BoolFieldIs(m, "hide_details_until_startable", Some(false), q.hideDetailsUntilStartable)
    && BoolFieldIs(m, "hide_dependency_lines", Some(false), q.hideDependencyLines)
    && BoolFieldIs(m, "hide_lock_icon", Some(false), q.hideLockIcon)
    && BoolFieldIs(m, "hide_text_until_complete", Some(false), q.hideTextUntilComplete)
    && BoolFieldIs(m, "hide_until_deps_complete", Some(false), q.hideUntilDepsComplete)
    && BoolFieldIs(m, "hide_until_deps_visible", Some(false), q.hideUntilDepsVisible)
  }

  ghost predicate QuestFieldsAre(m: Fields, q: Quest) {
    && Holds(m, "id", RStr(q.id))
    && CoordFieldIs(m, "x", q.x)
    && CoordFieldIs(m, "y", q.y)
    && QuestOptionalsAre(m, q)
  }

  /** A chapter's required fields. */
  ghost predicate ChapterKeysAre(m: Fields, keys: (string, string, string, int)) {
    && Holds(m, "id", RStr(keys.0))
    && Holds(m, "filename", RStr(keys.1))
    && Holds(m, "group", RStr(keys.2))
    && Holds(m, "order_index", RInt(keys.3))
  }

  /** `title`, `subtitle` and `icon`. */
  ghost predicate ChapterHeadingIs(m: Fields, h: (Option<string>, Option<string>, Option<Item>)) {
    && StrFieldIs(m, "title", None, h.0)
    && StrFieldIs(m, "subtitle", None, h.1)
    && ItemFieldIs(m, "icon", h.2)
  }

  /** `tags` and `quests`. */
  ghost predicate ChapterListsAre(m: Fields, l: (seq<string>, seq<Quest>)) {
    && ListFieldIs(m, "tags", ValidateStrings, l.0)
    && ListFieldIs(m, "quests", ValidateQuests, l.1)
  }

  ghost predicate ChapterDefaults1Are(m: Fields, d: (Option<bool>, Option<string>, Option<bool>, Option<bool>, Option<bool>)) {
    && BoolFieldIs(m, "disable_completion_toast", Some(false), d.0)
    && StrFieldIs(m, "default_quest_shape", Some("circle"), d.1)
    && BoolFieldIs(m, "default_hide_dependency_lines", Some(false), d.2)
    && BoolFieldIs(m, "hide_quest_details_until_startable", Some(false), d.3)
    && BoolFieldIs(m, "hide_quests_until_deps_visible", Some(false), d.4)
  }

  ghost predicate ChapterDefaults2Are(m: Fields, d: (Option<string>, Option<string>, Option<bool>, Option<bool>, Option<bool>)) {
    && StrFieldIs(m, "autofocus_quest_id", None, d.0)
    && StrFieldIs(m, "default_progression_mode", Some("linear"), d.1)
    && BoolFieldIs(m, "default_repeatable_quest", Some(false), d.2)
    && BoolFieldIs(m, "default_item_task_consume_items", Some(false), d.3)
    && BoolFieldIs(m, "sequential_task_completion", Some(false), d.4)
  }

  /** The fifteen optional fields of a chapter. */
  ghost predicate ChapterOptionalsAre(m: Fields, c: Chapter) {
    && ChapterHeadingIs(m, (c.title, c.subtitle, c.icon))
    && ChapterListsAre(m, (c.tags, c.quests))
    && ChapterDefaults1Are(m, (c.disableCompletionToast, c.defaultQuestShape, c.defaultHideDependencyLines,
                               c.hideQuestDetailsUntilStartable, c.hideQuestsUntilDepsVisible))
    && ChapterDefaults2Are(m, (c.autofocusQuestId, c.defaultProgressionMode, c.defaultRepeatableQuest,
                               c.defaultItemTaskConsumeItems, c.sequentialTaskCompletion))
  }

  ghost predicate ChapterFieldsAre(m: Fields, c: Chapter) {
    && ChapterKeysAre(m, (c.id, c.filename, c.group, c.orderIndex))
    && ChapterOptionalsAre(m, c)
  }

  // ---------------------------------------------------------------------------
  // Field readers
  // ---------------------------------------------------------------------------

  function Missing<T>(k: string): Result<T> { Err(k + ": field required") }
  function WrongType<T>(k: string): Result<T> { Err(k + ": input has the wrong type") }

  /** A required `str` field. */
  function RequiredStr(m: Fields, k: string): (r: Result<string>)
    ensures r.Ok? <==> k in m && m[k].RStr?
    ensures r.Ok? ==> m[k] == RStr(r.value)
  {
    if k !in m then Missing(k)
    else match m[k]
      case RStr(s) => Ok(s)
      case _ => WrongType(k)
  }

  /** A required `int` field. */
  function RequiredInt(m: Fields, k: string): (r: Result<int>)
    ensures r.Ok? <==> k in m && m[k].RInt?
    ensures r.Ok? ==> m[k] == RInt(r.value)
  {
    if k !in m then Missing(k)
    else match m[k]
      case RInt(i) => Ok(i)
      case _ => WrongType(k)
  }

  /** A required `float` field; an integer input is taken as the same number. */
  function RequiredCoord(m: Fields, k: string): (r: Result<Coord>)
    ensures r.Ok? <==> k in m && (m[k].RFloat? || m[k].RInt?)
    ensures r.Ok? ==> CoordFieldIs(m, k, r.value)
  {
    if k !in m then Missing(k)
    else match m[k]
      case RFloat(f) => Ok(f)
      case RInt(i) => Ok(i as real)
      case _ => WrongType(k)
  }

  function OptionalStr(m: Fields, k: string, default: Option<string>): (r: Result<Option<string>>)
    ensures r.Ok? ==> StrFieldIs(m, k, default, r.value)
  {
    if k !in m then Ok(default)
    else match m[k]
      case RNull => Ok(None)
      case RStr(s) => Ok(Some(s))
      case _ => WrongType(k)
  }

  function OptionalBool(m: Fields, k: string, default: Option<bool>): (r: Result<Option<bool>>)
    ensures r.Ok? ==> BoolFieldIs(m, k, default, r.value)
  {
    if k !in m then Ok(default)
    else match m[k]
      case RNull => Ok(None)
      case RBool(b) => Ok(Some(b))
      case _ => WrongType(k)
  }

  function OptionalInt(m: Fields, k: string, default: Option<int>): (r: Result<Option<int>>)
    ensures r.Ok? ==> IntFieldIs(m, k, default, r.value)
  {
    if k !in m then Ok(default)
    else match m[k]
      case RNull => Ok(None)
      case RInt(i) => Ok(Some(i))
      case _ => WrongType(k)
  }

  /** `Optional[Union[int, str]] = None` */
  function OptionalCount(m: Fields, k: string): (r: Result<Option<Count>>)
    ensures r.Ok? ==> CountFieldIs(m, k, r.value)
  {
    if k !in m then Ok(None)
    else match m[k]
      case RNull => Ok(None)
      case RInt(i) => Ok(Some(CountInt(i)))
      case RStr(s) => Ok(Some(CountStr(s)))
      case _ => WrongType(k)
  }

  /** `Optional[Dict[str, Any]] = None`: the mapping is kept verbatim. */
  function OptionalFields(m: Fields, k: string): (r: Result<Option<Fields>>)
    ensures r.Ok? ==> MapFieldIs(m, k, r.value)
  {
    if k !in m then Ok(None)
    else match m[k]
      case RNull => Ok(None)
      case RMap(f) => Ok(Some(f))
      case _ => WrongType(k)
  }

  /** A `List[X]` field before its elements are checked: absent is empty. */
  function ListField(m: Fields, k: string): (r: Result<seq<Raw>>)
    ensures r.Ok? ==> if k in m then m[k] == RList(r.value) else r.value == []
  {
    if k !in m then Ok([])
    else match m[k]
      case RList(items) => Ok(items)
      case _ => WrongType(k)
  }

  /** `List[str]` */
  function ValidateStrings(items: seq<Raw>): (r: Result<seq<string>>)
    ensures r.Ok? <==> forall i :: 0 <= i < |items| ==> items[i].RStr?
    ensures r.Ok? ==> |r.value| == |items| && forall i :: 0 <= i < |items| ==> items[i] == RStr(r.value[i])
  {
    if items == [] then Ok([])
    else match items[0]
      case RStr(s) =>
        var rest :- ValidateStrings(items[1..]);
        Ok([s] + rest)
      case _ => Err("list element: input should be a valid string")
  }

  // ---------------------------------------------------------------------------
  // Validators
  // ---------------------------------------------------------------------------

  /** `Item.model_validate`: `id` required, `count` defaults to 1,
      `components` to None. */
  function ValidateItem(raw: Raw): (r: Result<Item>)
    ensures r.Ok? ==> raw.RMap? && ItemFieldsAre(raw.fields, r.value)
  {
    if !raw.RMap? then Err("item: input should be a valid dictionary")
    else
      var m := raw.fields;
      var id :- RequiredStr(m, "id");
      var count :- OptionalInt(m, "count", Some(1));
      var components :- OptionalFields(m, "components");
      Ok(Item(id, count, components))
  }

  function OptionalItem(m: Fields, k: string): (r: Result<Option<Item>>)
    ensures r.Ok? ==> ItemFieldIs(m, k, r.value)
  {
    if k !in m || m[k] == RNull then Ok(None)
    else
      var item :- ValidateItem(m[k]);
      Ok(Some(item))
  }

  /** `QuestComponent.model_validate` (shared by Task and Reward): `id` and
      `type` required; `item`, `advancement` and `count` default to None,
      `optional_task` to False; the variant of `count` is kept. */
  function ValidateComponent(raw: Raw): (r: Result<QuestComponent>)
    ensures r.Ok? ==> raw.RMap? && ComponentFieldsAre(raw.fields, r.value)
  {
    if !raw.RMap? then Err("component: input should be a valid dictionary")
    else
      var m := raw.fields;
      var id :- RequiredStr(m, "id");
      var kind :- RequiredStr(m, "type");
      var item :- OptionalItem(m, "item");
      var advancement :- OptionalStr(m, "advancement", None);
      var optionalTask :- OptionalBool(m, "optional_task", Some(false));
      var count :- OptionalCount(m, "count");
      Ok(QuestComponent(id, kind, item, advancement, optionalTask, count))
  }

  /** `List[Task]`: every element validated, in order. */
  function ValidateTasks(items: seq<Raw>): (r: Result<seq<Task>>)
    ensures r.Ok? <==> forall i :: 0 <= i < |items| ==> ValidateComponent(items[i]).Ok?
    ensures r.Ok? ==> (|r.value| == |items|
      && forall i :: 0 <= i < |items| ==> ValidateComponent(items[i]) == Ok(r.value[i].component))
  {
    if items == [] then Ok([])
    else
      var c :- ValidateComponent(items[0]);
      var rest :- ValidateTasks(items[1..]);
      Ok([Task(c)] + rest)
  }

  /** `List[Reward]`: every element validated, in order. */
  function ValidateRewards(items: seq<Raw>): (r: Result<seq<Reward>>)
    ensures r.Ok? <==> forall i :: 0 <= i < |items| ==> ValidateComponent(items[i]).Ok?
    ensures r.Ok? ==> (|r.value| == |items|
      && forall i :: 0 <= i < |items| ==> ValidateComponent(items[i]) == Ok(r.value[i].component))
  {
    if items == [] then Ok([])
    else
      var c :- ValidateComponent(items[0]);
      var rest :- ValidateRewards(items[1..]);
      Ok([Reward(c)] + rest)
  }

  /** `Quest.model_validate`: `id`, `x`, `y` required; the three lists
      default to empty; the six hide flags default to False. */
  function ValidateQuest(raw: Raw): (r: Result<Quest>)
    ensures r.Ok? ==> raw.RMap? && QuestFieldsAre(raw.fields, r.value)
  {
    if !raw.RMap? then Err("quest: input should be a valid dictionary")
    else
      var m := raw.fields;
      var id :- RequiredStr(m, "id");
      var x :- RequiredCoord(m, "x");
      var y :- RequiredCoord(m, "y");
      var depItems :- ListField(m, "dependencies");
      var dependencies :- ValidateStrings(depItems);
      var taskItems :- ListField(m, "tasks");
      var tasks :- ValidateTasks(taskItems);
      var rewardItems :- ListField(m, "rewards");
      var rewards :- ValidateRewards(rewardItems);
      var f1 :- OptionalBool(m, "hide_details_until_startable", Some(false));
      var f2 :- OptionalBool(m, "hide_dependency_lines", Some(false));
      var f3 :- OptionalBool(m, "hide_lock_icon", Some(false));
      var f4 :- OptionalBool(m, "hide_text_until_complete", Some(false));
      var f5 :- OptionalBool(m, "hide_until_deps_complete", Some(false));
      var f6 :- OptionalBool(m, "hide_until_deps_visible", Some(false));
      Ok(Quest(id, x, y, dependencies, tasks, rewards, f1, f2, f3, f4, f5, f6))
  }

  /** `List[Quest]`: every element validated, in order. */
  function ValidateQuests(items: seq<Raw>): (r: Result<seq<Quest>>)
    ensures r.Ok? <==> forall i :: 0 <= i < |items| ==> ValidateQuest(items[i]).Ok?
    ensures r.Ok? ==> (|r.value| == |items|
      && forall i :: 0 <= i < |items| ==> ValidateQuest(items[i]) == Ok(r.value[i]))
  {
    if items == [] then Ok([])
    else
      var q :- ValidateQuest(items[0]);
      var rest :- ValidateQuests(items[1..]);
      Ok([q] + rest)
  }

  /** The chapter's required fields `id`, `filename`, `group` and
      `order_index`, read in that order. */
  function ChapterKeyFields(m: Fields): (r: Result<(string, string, string, int)>)
    ensures r.Ok? <==> ("id" in m && m["id"].RStr? && "filename" in m && m["filename"].RStr?
                        && "group" in m && m["group"].RStr? && "order_index" in m && m["order_index"].RInt?)
    ensures r.Ok? ==> ChapterKeysAre(m, r.value)
  {
    var id :- RequiredStr(m, "id");
    var filename :- RequiredStr(m, "filename");
    var group :- RequiredStr(m, "group");
    var orderIndex :- RequiredInt(m, "order_index");
    Ok((id, filename, group, orderIndex))
  }

  /** `title`, `subtitle` and `icon`, all unset by default. */
  function ChapterHeading(m: Fields): (r: Result<(Option<string>, Option<string>, Option<Item>)>)
    ensures r.Ok? ==> ChapterHeadingIs(m, r.value)
  {
    var title :- OptionalStr(m, "title", None);
    var subtitle :- OptionalStr(m, "subtitle", None);
    var icon :- OptionalItem(m, "icon");
    Ok((title, subtitle, icon))
  }

  /** `tags` and `quests`, empty by default. */
  function ChapterLists(m: Fields): (r: Result<(seq<string>, seq<Quest>)>)
    ensures r.Ok? ==> ChapterListsAre(m, r.value)
  {
    var tagItems :- ListField(m, "tags");
    var tags :- ValidateStrings(tagItems);
    var questItems :- ListField(m, "quests");
    var quests :- ValidateQuests(questItems);
    Ok((tags, quests))
  }

  /** The first five display settings a chapter gives its quests. */
  function ChapterDefaults1(m: Fields): (r: Result<(Option<bool>, Option<string>, Option<bool>, Option<bool>, Option<bool>)>)
    ensures r.Ok? ==> ChapterDefaults1Are(m, r.value)
  {
    var disableCompletionToast :- OptionalBool(m, "disable_completion_toast", Some(false));
    var defaultQuestShape :- OptionalStr(m, "default_quest_shape", Some("circle"));
    var defaultHideDependencyLines :- OptionalBool(m, "default_hide_dependency_lines", Some(false));
    var hideQuestDetails :- OptionalBool(m, "hide_quest_details_until_startable", Some(false));
    var hideQuestsUntilDepsVisible :- OptionalBool(m, "hide_quests_until_deps_visible", Some(false));
    Ok((disableCompletionToast, defaultQuestShape, defaultHideDependencyLines, hideQuestDetails,
        hideQuestsUntilDepsVisible))
  }

  /** The other five. */
  function ChapterDefaults2(m: Fields): (r: Result<(Option<string>, Option<string>, Option<bool>, Option<bool>, Option<bool>)>)
    ensures r.Ok? ==> ChapterDefaults2Are(m, r.value)
  {
    var autofocusQuestId :- OptionalStr(m, "autofocus_quest_id", None);
    var defaultProgressionMode :- OptionalStr(m, "default_progression_mode", Some("linear"));
    var defaultRepeatableQuest :- OptionalBool(m, "default_repeatable_quest", Some(false));
    var consumeItems :- OptionalBool(m, "default_item_task_consume_items", Some(false));
    var sequential :- OptionalBool(m, "sequential_task_completion", Some(false));
    Ok((autofocusQuestId, defaultProgressionMode, defaultRepeatableQuest, consumeItems, sequential))
  }

  /** `Chapter.model_validate`: `id`, `filename`, `group`, `order_index`
      required; title, subtitle, icon and autofocus_quest_id default to None,
      tags and quests to empty, the shape to "circle", the progression mode to
      "linear" and the remaining flags to False. */
  function ValidateChapter(raw: Raw): (r: Result<Chapter>)
    ensures r.Ok? ==> raw.RMap? && ChapterFieldsAre(raw.fields, r.value)
  {
    if !raw.RMap? then Err("chapter: input should be a valid dictionary")
    else
      var m := raw.fields;
      var keys :- ChapterKeyFields(m);
      var heading :- ChapterHeading(m);
      var lists :- ChapterLists(m);
      var d1 :- ChapterDefaults1(m);
      var d2 :- ChapterDefaults2(m);
      Ok(Chapter(heading.0, heading.1, keys.0, heading.2, keys.1, keys.2, lists.0, keys.3, lists.1,
                 d1.0, d1.1, d1.2, d1.3, d1.4, d2.0, d2.1, d2.2, d2.3, d2.4))
  }

  // ---------------------------------------------------------------------------
  // Defaults and the dump/validate round trip
  // ---------------------------------------------------------------------------

  /** The mappings holding exactly the required fields. */
  function ComponentRequired(id: string, kind: string): Fields {
    map["id" := RStr(id), "type" := RStr(kind)]
  }

  function QuestRequired(id: string, x: Coord, y: Coord): Fields {
    map["id" := RStr(id), "x" := RFloat(x), "y" := RFloat(y)]
  }

  function ChapterRequired(id: string, filename: string, group: string, orderIndex: int): Fields {
    map["id" := RStr(id), "filename" := RStr(filename), "group" := RStr(group), "order_index" := RInt(orderIndex)]
  }

  /** Required fields passed beside keyword arguments override them. */
  lemma ChapterRequiredHolds(kwargs: Fields, id: string, filename: string, group: string, orderIndex: int)
    ensures Holds(kwargs + ChapterRequired(id, filename, group, orderIndex), "id", RStr(id))
    ensures Holds(kwargs + ChapterRequired(id, filename, group, orderIndex), "filename", RStr(filename))
    ensures Holds(kwargs + ChapterRequired(id, filename, group, orderIndex), "group", RStr(group))
    ensures Holds(kwargs + ChapterRequired(id, filename, group, orderIndex), "order_index", RInt(orderIndex))
  {
  }

  // Keyword arguments merged under the required fields keep every optional
  // field they give: the required fields only ever replace required keys.

  lemma ComponentOptionalsKept(kwargs: Fields, id: string, kind: string, c: QuestComponent)
    ensures ComponentOptionalsAre(kwargs + ComponentRequired(id, kind), c) <==> ComponentOptionalsAre(kwargs, c)
  {
  }

  lemma BoolFieldKept(kwargs: Fields, req: Fields, k: string, default: Option<bool>, v: Option<bool>)
    requires k !in req
    ensures BoolFieldIs(kwargs + req, k, default, v) <==> BoolFieldIs(kwargs, k, default, v)
  {
  }

  lemma ListFieldKept<T>(kwargs: Fields, req: Fields, k: string, validate: seq<Raw> -> Result<seq<T>>, v: seq<T>)
    requires k !in req
    ensures ListFieldIs(kwargs + req, k, validate, v) <==> ListFieldIs(kwargs, k, validate, v)
  {
  }

  lemma QuestOptionalsKeptBy(kwargs: Fields, req: Fields, q: Quest)
    requires "dependencies" !in req && "tasks" !in req && "rewards" !in req
    requires "hide_details_until_startable" !in req && "hide_dependency_lines" !in req
    requires "hide_lock_icon" !in req && "hide_text_until_complete" !in req
    requires "hide_until_deps_complete" !in req && "hide_until_deps_visible" !in req
    ensures QuestOptionalsAre(kwargs + req, q) <==> QuestOptionalsAre(kwargs, q)
  {
    ListFieldKept(kwargs, req, "dependencies", ValidateStrings, q.dependencies);
    ListFieldKept(kwargs, req, "tasks", ValidateTasks, q.tasks);
    ListFieldKept(kwargs, req, "rewards", ValidateRewards, q.rewards);
    BoolFieldKept(kwargs, req, "hide_details_until_startable", Some(false), q.hideDetailsUntilStartable);
    BoolFieldKept(kwargs, req, "hide_dependency_lines", Some(false), q.hideDependencyLines);
    BoolFieldKept(kwargs, req, "hide_lock_icon", Some(false), q.hideLockIcon);
    BoolFieldKept(kwargs, req, "hide_text_until_complete", Some(false), q.hideTextUntilComplete);
    BoolFieldKept(kwargs, req, "hide_until_deps_complete", Some(false), q.hideUntilDepsComplete);
    BoolFieldKept(kwargs, req, "hide_until_deps_visible", Some(false), q.hideUntilDepsVisible);
  }

  lemma QuestOptionalsKept(kwargs: Fields, id: string, x: Coord, y: Coord, q: Quest)
    ensures QuestOptionalsAre(kwargs + QuestRequired(id, x, y), q) <==> QuestOptionalsAre(kwargs, q)
  {
    QuestOptionalsKeptBy(kwargs, QuestRequired(id, x, y), q);
  }

  lemma ChapterHeadingKept(kwargs: Fields, req: Fields, h: (Option<string>, Option<string>, Option<Item>))
    requires "title" !in req && "subtitle" !in req && "icon" !in req
    ensures ChapterHeadingIs(kwargs + req, h) <==> ChapterHeadingIs(kwargs, h)
  {
  }

  lemma ChapterListsKept(kwargs: Fields, req: Fields, l: (seq<string>, seq<Quest>))
    requires "tags" !in req && "quests" !in req
    ensures ChapterListsAre(kwargs + req, l) <==> ChapterListsAre(kwargs, l)
  {
  }

  lemma ChapterDefaults1Kept(kwargs: Fields, req: Fields,
                             d: (Option<bool>, Option<string>, Option<bool>, Option<bool>, Option<bool>))
    requires "disable_completion_toast" !in req && "default_quest_shape" !in req
    requires "default_hide_dependency_lines" !in req && "hide_quest_details_until_startable" !in req
    requires "hide_quests_until_deps_visible" !in req
    ensures ChapterDefaults1Are(kwargs + req, d) <==> ChapterDefaults1Are(kwargs, d)
  {
  }

  lemma ChapterDefaults2Kept(kwargs: Fields, req: Fields,
                             d: (Option<string>, Option<string>, Option<bool>, Option<bool>, Option<bool>))
    requires "autofocus_quest_id" !in req && "default_progression_mode" !in req
    requires "default_repeatable_quest" !in req && "default_item_task_consume_items" !in req
    requires "sequential_task_completion" !in req
    ensures ChapterDefaults2Are(kwargs + req, d) <==> ChapterDefaults2Are(kwargs, d)
  {
  }

  lemma ChapterOptionalsKept(kwargs: Fields, id: string, filename: string, group: string, orderIndex: int, c: Chapter)
    ensures ChapterOptionalsAre(kwargs + ChapterRequired(id, filename, group, orderIndex), c) <==> ChapterOptionalsAre(kwargs, c)
  {
    var req := ChapterRequired(id, filename, group, orderIndex);
    ChapterHeadingKept(kwargs, req, (c.title, c.subtitle, c.icon));
    ChapterListsKept(kwargs, req, (c.tags, c.quests));
    ChapterDefaults1Kept(kwargs, req, (c.disableCompletionToast, c.defaultQuestShape, c.defaultHideDependencyLines,
                                       c.hideQuestDetailsUntilStartable, c.hideQuestsUntilDepsVisible));
    ChapterDefaults2Kept(kwargs, req, (c.autofocusQuestId, c.defaultProgressionMode, c.defaultRepeatableQuest,
                                       c.defaultItemTaskConsumeItems, c.sequentialTaskCompletion));
  }

  /** A component given only its two required fields takes every default. */
  lemma MinimalComponent(id: string, kind: string)
    ensures ValidateComponent(RMap(ComponentRequired(id, kind))) == Ok(DefaultComponent(id, kind))
  {
  }

  /** A quest given only its three required fields takes every default. */
  lemma MinimalQuest(id: string, x: Coord, y: Coord)
    ensures ValidateQuest(RMap(QuestRequired(id, x, y))) == Ok(DefaultQuest(id, x, y))
  {
    var m := QuestRequired(id, x, y);
    assert RequiredStr(m, "id") == Ok(id);
    assert RequiredCoord(m, "x") == Ok(x) && RequiredCoord(m, "y") == Ok(y);
    assert "dependencies" !in m && "tasks" !in m && "rewards" !in m;
    assert "hide_details_until_startable" !in m && "hide_dependency_lines" !in m && "hide_lock_icon" !in m;
    assert "hide_text_until_complete" !in m && "hide_until_deps_complete" !in m && "hide_until_deps_visible" !in m;
  }

  // Given only the required chapter fields, each group of optional fields
  // takes its defaults.

  lemma ChapterHeadingAbsent(id: string, filename: string, group: string, orderIndex: int)
    ensures ChapterHeading(ChapterRequired(id, filename, group, orderIndex)) == Ok((None, None, None))
  {
    var m := ChapterRequired(id, filename, group, orderIndex);
    assert "title" !in m && "subtitle" !in m && "icon" !in m;
  }

  lemma ChapterListsAbsent(id: string, filename: string, group: string, orderIndex: int)
    ensures ChapterLists(ChapterRequired(id, filename, group, orderIndex)) == Ok(([], []))
  {
    var m := ChapterRequired(id, filename, group, orderIndex);
    assert "tags" !in m && "quests" !in m;
  }

  lemma ChapterDefaults1Absent(id: string, filename: string, group: string, orderIndex: int)
    ensures ChapterDefaults1(ChapterRequired(id, filename, group, orderIndex))
         == Ok((Some(false), Some("circle"), Some(false), Some(false), Some(false)))
  {
    var m := ChapterRequired(id, filename, group, orderIndex);
    assert "disable_completion_toast" !in m && "default_quest_shape" !in m;
    assert "default_hide_dependency_lines" !in m && "hide_quest_details_until_startable" !in m;
    assert "hide_quests_until_deps_visible" !in m;
  }

  lemma ChapterDefaults2Absent(id: string, filename: string, group: string, orderIndex: int)
    ensures ChapterDefaults2(ChapterRequired(id, filename, group, orderIndex))
         == Ok((None, Some("linear"), Some(false), Some(false), Some(false)))
  {
    var m := ChapterRequired(id, filename, group, orderIndex);
    assert "autofocus_quest_id" !in m && "default_progression_mode" !in m;
    assert "default_repeatable_quest" !in m && "default_item_task_consume_items" !in m;
    assert "sequential_task_completion" !in m;
  }

  /** A chapter given only its four required fields takes every default. */
  lemma MinimalChapter(id: string, filename: string, group: string, orderIndex: int)
    ensures ValidateChapter(RMap(ChapterRequired(id, filename, group, orderIndex)))
         == Ok(DefaultChapter(id, filename, group, orderIndex))
  {
    var m := ChapterRequired(id, filename, group, orderIndex);
    var c := DefaultChapter(id, filename, group, orderIndex);
    ChapterRequiredHolds(map[], id, filename, group, orderIndex);
    assert map[] + m == m;
    ChapterKeysBack(m, c);
    ChapterHeadingAbsent(id, filename, group, orderIndex);
    ChapterListsAbsent(id, filename, group, orderIndex);
    ChapterDefaults1Absent(id, filename, group, orderIndex);
    ChapterDefaults2Absent(id, filename, group, orderIndex);
    ChapterFromGroups(m, c);
  }

  /** A chapter lacking any one of its required fields is rejected. */
  lemma ChapterRequiresFields(m: Fields)
    requires "id" !in m || "filename" !in m || "group" !in m || "order_index" !in m
    ensures ValidateChapter(RMap(m)).Err?
  {
  }

  function DumpStr(o: Option<string>): Raw {
    match o
    case None => RNull
    case Some(s) => RStr(s)
  }

  function DumpBool(o: Option<bool>): Raw {
    match o
    case None => RNull
    case Some(b) => RBool(b)
  }

  function DumpStrings(ss: seq<string>): (r: seq<Raw>)
    ensures |r| == |ss| && forall i :: 0 <= i < |ss| ==> r[i] == RStr(ss[i])
  {
    seq(|ss|, i requires 0 <= i < |ss| => RStr(ss[i]))
  }

  /** `model_dump()`: every field, null for None. */
  function DumpItem(i: Item): Raw {
    RMap(map[
      "id" := RStr(i.id),
      "count" := (match i.count case None => RNull case Some(n) => RInt(n)),
      "components" := (match i.components case None => RNull case Some(f) => RMap(f))])
  }

  function DumpComponent(c: QuestComponent): Raw {
    RMap(map[
      "id" := RStr(c.id),
      "type" := RStr(c.kind),
      "item" := (match c.item case None => RNull case Some(i) => DumpItem(i)),
      "advancement" := DumpStr(c.advancement),
      "optional_task" := DumpBool(c.optionalTask),
      "count" := (match c.count
                  case None => RNull
                  case Some(CountInt(n)) => RInt(n)
                  case Some(CountStr(s)) => RStr(s))])
  }

  function DumpTasks(ts: seq<Task>): (r: seq<Raw>)
    ensures |r| == |ts| && forall i :: 0 <= i < |ts| ==> r[i] == DumpComponent(ts[i].component)
  {
    seq(|ts|, i requires 0 <= i < |ts| => DumpComponent(ts[i].component))
  }

  function DumpRewards(rs: seq<Reward>): (r: seq<Raw>)
    ensures |r| == |rs| && forall i :: 0 <= i < |rs| ==> r[i] == DumpComponent(rs[i].component)
  {
    seq(|rs|, i requires 0 <= i < |rs| => DumpComponent(rs[i].component))
  }

  function DumpQuest(q: Quest): Raw {
    RMap(map[
      "id" := RStr(q.id),
      "x" := RFloat(q.x),
      "y" := RFloat(q.y),
      "dependencies" := RList(DumpStrings(q.dependencies)),
      "tasks" := RList(DumpTasks(q.tasks)),
      "rewards" := RList(DumpRewards(q.rewards)),
      "hide_details_until_startable" := DumpBool(q.hideDetailsUntilStartable),
      "hide_dependency_lines" := DumpBool(q.hideDependencyLines),
      "hide_lock_icon" := DumpBool(q.hideLockIcon),
      "hide_text_until_complete" := DumpBool(q.hideTextUntilComplete),
      "hide_until_deps_complete" := DumpBool(q.hideUntilDepsComplete),
      "hide_until_deps_visible" := DumpBool(q.hideUntilDepsVisible)])
  }

  function DumpQuests(qs: seq<Quest>): (r: seq<Raw>)
    ensures |r| == |qs| && forall i :: 0 <= i < |qs| ==> r[i] == DumpQuest(qs[i])
  {
    seq(|qs|, i requires 0 <= i < |qs| => DumpQuest(qs[i]))
  }

  function DumpIcon(icon: Option<Item>): Raw {
    match icon
    case None => RNull
    case Some(i) => DumpItem(i)
  }

  function DumpChapter(c: Chapter): Raw {
    RMap(map[
      "title" := DumpStr(c.title),
      "subtitle" := DumpStr(c.subtitle),
      "id" := RStr(c.id),
      "icon" := DumpIcon(c.icon),
      "filename" := RStr(c.filename),
      "group" := RStr(c.group),
      "tags" := RList(DumpStrings(c.tags)),
      "order_index" := RInt(c.orderIndex),
      "quests" := RList(DumpQuests(c.quests)),
      "disable_completion_toast" := DumpBool(c.disableCompletionToast),
      "default_quest_shape" := DumpStr(c.defaultQuestShape),
      "default_hide_dependency_lines" := DumpBool(c.defaultHideDependencyLines),
      "hide_quest_details_until_startable" := DumpBool(c.hideQuestDetailsUntilStartable),
      "hide_quests_until_deps_visible" := DumpBool(c.hideQuestsUntilDepsVisible),
      "autofocus_quest_id" := DumpStr(c.autofocusQuestId),
      "default_progression_mode" := DumpStr(c.defaultProgressionMode),
      "default_repeatable_quest" := DumpBool(c.defaultRepeatableQuest),
      "default_item_task_consume_items" := DumpBool(c.defaultItemTaskConsumeItems),
      "sequential_task_completion" := DumpBool(c.sequentialTaskCompletion)])
  }

  // Reading back a dumped field gives the value that was dumped.

  lemma ReadStr(m: Fields, k: string, s: string)
    requires k in m && m[k] == RStr(s)
    ensures RequiredStr(m, k) == Ok(s)
  {
  }

  lemma ReadCoord(m: Fields, k: string, x: Coord)
    requires k in m && m[k] == RFloat(x)
    ensures RequiredCoord(m, k) == Ok(x)
  {
  }

  lemma ReadList(m: Fields, k: string, items: seq<Raw>)
    requires k in m && m[k] == RList(items)
    ensures ListField(m, k) == Ok(items)
  {
  }

  lemma ReadOptStr(m: Fields, k: string, default: Option<string>, o: Option<string>)
    requires k in m && m[k] == DumpStr(o)
    ensures OptionalStr(m, k, default) == Ok(o)
  {
  }

  lemma ReadBool(m: Fields, k: string, default: Option<bool>, o: Option<bool>)
    requires k in m && m[k] == DumpBool(o)
    ensures OptionalBool(m, k, default) == Ok(o)
  {
  }

  lemma {:induction false} StringsRoundTrip(ss: seq<string>)
    ensures ValidateStrings(DumpStrings(ss)) == Ok(ss)
  {
    var r := ValidateStrings(DumpStrings(ss));
    assert r.Ok?;
    assert r.value == ss;
  }

  lemma ItemRoundTrip(i: Item)
    ensures ValidateItem(DumpItem(i)) == Ok(i)
  {
  }

  lemma ComponentReadBack(c: QuestComponent)
    ensures RequiredStr(DumpComponent(c).fields, "id") == Ok(c.id)
    ensures RequiredStr(DumpComponent(c).fields, "type") == Ok(c.kind)
    ensures OptionalStr(DumpComponent(c).fields, "advancement", None) == Ok(c.advancement)
    ensures OptionalBool(DumpComponent(c).fields, "optional_task", Some(false)) == Ok(c.optionalTask)
  {
  }

  lemma ComponentReadBackOptional(c: QuestComponent)
    ensures OptionalItem(DumpComponent(c).fields, "item") == Ok(c.item)
    ensures OptionalCount(DumpComponent(c).fields, "count") == Ok(c.count)
  {
    if c.item.Some? {
      ItemRoundTrip(c.item.value);
    }
  }

  lemma ComponentRoundTrip(c: QuestComponent)
    ensures ValidateComponent(DumpComponent(c)) == Ok(c)
  {
    ComponentReadBack(c);
    ComponentReadBackOptional(c);
  }

  lemma TasksRoundTrip(ts: seq<Task>)
    ensures ValidateTasks(DumpTasks(ts)) == Ok(ts)
  {
    var items := DumpTasks(ts);
    forall i | 0 <= i < |ts| ensures ValidateComponent(items[i]) == Ok(ts[i].component) {
      ComponentRoundTrip(ts[i].component);
    }
    var r := ValidateTasks(items);
    assert r.value == ts;
  }

  lemma RewardsRoundTrip(rs: seq<Reward>)
    ensures ValidateRewards(DumpRewards(rs)) == Ok(rs)
  {
    var items := DumpRewards(rs);
    forall i | 0 <= i < |rs| ensures ValidateComponent(items[i]) == Ok(rs[i].component) {
      ComponentRoundTrip(rs[i].component);
    }
    var r := ValidateRewards(items);
    assert r.value == rs;
  }

  lemma QuestDumpLookups1(q: Quest)
    ensures "id" in DumpQuest(q).fields && DumpQuest(q).fields["id"] == RStr(q.id)
    ensures "x" in DumpQuest(q).fields && DumpQuest(q).fields["x"] == RFloat(q.x)
    ensures "y" in DumpQuest(q).fields && DumpQuest(q).fields["y"] == RFloat(q.y)
    ensures "dependencies" in DumpQuest(q).fields && DumpQuest(q).fields["dependencies"] == RList(DumpStrings(q.dependencies))
  {
  }

  lemma QuestDumpLookups2(q: Quest)
    ensures "tasks" in DumpQuest(q).fields && DumpQuest(q).fields["tasks"] == RList(DumpTasks(q.tasks))
    ensures "rewards" in DumpQuest(q).fields && DumpQuest(q).fields["rewards"] == RList(DumpRewards(q.rewards))
    ensures "hide_details_until_startable" in DumpQuest(q).fields && DumpQuest(q).fields["hide_details_until_startable"] == DumpBool(q.hideDetailsUntilStartable)
    ensures "hide_dependency_lines" in DumpQuest(q).fields && DumpQuest(q).fields["hide_dependency_lines"] == DumpBool(q.hideDependencyLines)
  {
  }

  lemma QuestDumpLookups3(q: Quest)
    ensures "hide_lock_icon" in DumpQuest(q).fields && DumpQuest(q).fields["hide_lock_icon"] == DumpBool(q.hideLockIcon)
    ensures "hide_text_until_complete" in DumpQuest(q).fields && DumpQuest(q).fields["hide_text_until_complete"] == DumpBool(q.hideTextUntilComplete)
    ensures "hide_until_deps_complete" in DumpQuest(q).fields && DumpQuest(q).fields["hide_until_deps_complete"] == DumpBool(q.hideUntilDepsComplete)
    ensures "hide_until_deps_visible" in DumpQuest(q).fields && DumpQuest(q).fields["hide_until_deps_visible"] == DumpBool(q.hideUntilDepsVisible)
  {
  }

  lemma QuestRoundTrip(q: Quest)
    ensures ValidateQuest(DumpQuest(q)) == Ok(q)
  {
    StringsRoundTrip(q.dependencies);
    TasksRoundTrip(q.tasks);
    RewardsRoundTrip(q.rewards);
    var m := DumpQuest(q).fields;
    QuestDumpLookups1(q);
    QuestDumpLookups2(q);
    QuestDumpLookups3(q);
    ReadStr(m, "id", q.id);
    ReadCoord(m, "x", q.x);
    ReadCoord(m, "y", q.y);
    ReadList(m, "dependencies", DumpStrings(q.dependencies));
    ReadList(m, "tasks", DumpTasks(q.tasks));
    ReadList(m, "rewards", DumpRewards(q.rewards));
    ReadBool(m, "hide_details_until_startable", Some(false), q.hideDetailsUntilStartable);
    ReadBool(m, "hide_dependency_lines", Some(false), q.hideDependencyLines);
    ReadBool(m, "hide_lock_icon", Some(false), q.hideLockIcon);
    ReadBool(m, "hide_text_until_complete", Some(false), q.hideTextUntilComplete);
    ReadBool(m, "hide_until_deps_complete", Some(false), q.hideUntilDepsComplete);
    ReadBool(m, "hide_until_deps_visible", Some(false), q.hideUntilDepsVisible);
  }

  lemma QuestsRoundTrip(qs: seq<Quest>)
    ensures ValidateQuests(DumpQuests(qs)) == Ok(qs)
  {
    var items := DumpQuests(qs);
    forall i | 0 <= i < |qs| ensures ValidateQuest(items[i]) == Ok(qs[i]) {
      QuestRoundTrip(qs[i]);
    }
    var r := ValidateQuests(items);
    assert r.value == qs;
  }

  // The chapter's fields read back, one group at a time: first what each
  // group reads from any map holding the dumped values, then that the dump
  // holds them.

  lemma ChapterKeysBack(m: Fields, c: Chapter)
    requires Holds(m, "id", RStr(c.id)) && Holds(m, "filename", RStr(c.filename))
    requires Holds(m, "group", RStr(c.group)) && Holds(m, "order_index", RInt(c.orderIndex))
    ensures ChapterKeyFields(m) == Ok((c.id, c.filename, c.group, c.orderIndex))
  {
  }

  lemma ChapterHeadingBack(m: Fields, c: Chapter)
    requires Holds(m, "title", DumpStr(c.title)) && Holds(m, "subtitle", DumpStr(c.subtitle))
    requires Holds(m, "icon", DumpIcon(c.icon))
    ensures ChapterHeading(m) == Ok((c.title, c.subtitle, c.icon))
  {
    if c.icon.Some? {
      ItemRoundTrip(c.icon.value);
    }
  }

  lemma ChapterListsBack(m: Fields, c: Chapter)
    requires Holds(m, "tags", RList(DumpStrings(c.tags))) && Holds(m, "quests", RList(DumpQuests(c.quests)))
    ensures ChapterLists(m) == Ok((c.tags, c.quests))
  {
    assert ListField(m, "tags") == Ok(DumpStrings(c.tags));
    assert ListField(m, "quests") == Ok(DumpQuests(c.quests));
    StringsRoundTrip(c.tags);
    QuestsRoundTrip(c.quests);
  }

  lemma ChapterDefaults1Back(m: Fields, c: Chapter)
    requires Holds(m, "disable_completion_toast", DumpBool(c.disableCompletionToast))
    requires Holds(m, "default_quest_shape", DumpStr(c.defaultQuestShape))
    requires Holds(m, "default_hide_dependency_lines", DumpBool(c.defaultHideDependencyLines))
    requires Holds(m, "hide_quest_details_until_startable", DumpBool(c.hideQuestDetailsUntilStartable))
    requires Holds(m, "hide_quests_until_deps_visible", DumpBool(c.hideQuestsUntilDepsVisible))
    ensures ChapterDefaults1(m)
         == Ok((c.disableCompletionToast, c.defaultQuestShape, c.defaultHideDependencyLines,
                c.hideQuestDetailsUntilStartable, c.hideQuestsUntilDepsVisible))
  {
  }

  lemma ChapterDefaults2Back(m: Fields, c: Chapter)
    requires Holds(m, "autofocus_quest_id", DumpStr(c.autofocusQuestId))
    requires Holds(m, "default_progression_mode", DumpStr(c.defaultProgressionMode))
    requires Holds(m, "default_repeatable_quest", DumpBool(c.defaultRepeatableQuest))
    requires Holds(m, "default_item_task_consume_items", DumpBool(c.defaultItemTaskConsumeItems))
    requires Holds(m, "sequential_task_completion", DumpBool(c.sequentialTaskCompletion))
    ensures ChapterDefaults2(m)
         == Ok((c.autofocusQuestId, c.defaultProgressionMode, c.defaultRepeatableQuest,
                c.defaultItemTaskConsumeItems, c.sequentialTaskCompletion))
  {
  }

  lemma ChapterDumpHoldsIds(c: Chapter)
    ensures Holds(DumpChapter(c).fields, "id", RStr(c.id)) && Holds(DumpChapter(c).fields, "filename", RStr(c.filename))
  {
  }

  lemma ChapterDumpHoldsOrder(c: Chapter)
    ensures Holds(DumpChapter(c).fields, "group", RStr(c.group)) && Holds(DumpChapter(c).fields, "order_index", RInt(c.orderIndex))
  {
  }

  lemma ChapterDumpHoldsHeading(c: Chapter)
    ensures Holds(DumpChapter(c).fields, "title", DumpStr(c.title)) && Holds(DumpChapter(c).fields, "subtitle", DumpStr(c.subtitle))
    ensures Holds(DumpChapter(c).fields, "icon", DumpIcon(c.icon))
  {
  }

  lemma ChapterDumpHoldsLists(c: Chapter)
    ensures Holds(DumpChapter(c).fields, "tags", RList(DumpStrings(c.tags)))
    ensures Holds(DumpChapter(c).fields, "quests", RList(DumpQuests(c.quests)))
  {
  }

  lemma ChapterDumpHoldsDefaults1(c: Chapter)
    ensures Holds(DumpChapter(c).fields, "disable_completion_toast", DumpBool(c.disableCompletionToast))
    ensures Holds(DumpChapter(c).fields, "default_quest_shape", DumpStr(c.defaultQuestShape))
    ensures Holds(DumpChapter(c).fields, "default_hide_dependency_lines", DumpBool(c.defaultHideDependencyLines))
    ensures Holds(DumpChapter(c).fields, "hide_quest_details_until_startable", DumpBool(c.hideQuestDetailsUntilStartable))
    ensures Holds(DumpChapter(c).fields, "hide_quests_until_deps_visible", DumpBool(c.hideQuestsUntilDepsVisible))
  {
  }

  lemma ChapterDumpHoldsDefaults2(c: Chapter)
    ensures Holds(DumpChapter(c).fields, "autofocus_quest_id", DumpStr(c.autofocusQuestId))
    ensures Holds(DumpChapter(c).fields, "default_progression_mode", DumpStr(c.defaultProgressionMode))
    ensures Holds(DumpChapter(c).fields, "default_repeatable_quest", DumpBool(c.defaultRepeatableQuest))
    ensures Holds(DumpChapter(c).fields, "default_item_task_consume_items", DumpBool(c.defaultItemTaskConsumeItems))
    ensures Holds(DumpChapter(c).fields, "sequential_task_completion", DumpBool(c.sequentialTaskCompletion))
  {
  }

  /** A chapter is whatever its five groups read. */
  lemma ChapterFromGroups(m: Fields, c: Chapter)
    requires ChapterKeyFields(m) == Ok((c.id, c.filename, c.group, c.orderIndex))
    requires ChapterHeading(m) == Ok((c.title, c.subtitle, c.icon))
    requires ChapterLists(m) == Ok((c.tags, c.quests))
    requires ChapterDefaults1(m)
          == Ok((c.disableCompletionToast, c.defaultQuestShape, c.defaultHideDependencyLines,
                 c.hideQuestDetailsUntilStartable, c.hideQuestsUntilDepsVisible))
    requires ChapterDefaults2(m)
          == Ok((c.autofocusQuestId, c.defaultProgressionMode, c.defaultRepeatableQuest,
                 c.defaultItemTaskConsumeItems, c.sequentialTaskCompletion))
    ensures ValidateChapter(RMap(m)) == Ok(c)
  {
  }

  /** Validating a dumped chapter gives the same chapter back: no field is
      lost, defaulted over or changed in variant. */
  lemma ChapterRoundTrip(c: Chapter)
    ensures ValidateChapter(DumpChapter(c)) == Ok(c)
  {
    var m := DumpChapter(c).fields;
    ChapterDumpHoldsIds(c);
    ChapterDumpHoldsOrder(c);
    ChapterDumpHoldsHeading(c);
    ChapterDumpHoldsLists(c);
    ChapterDumpHoldsDefaults1(c);
    ChapterDumpHoldsDefaults2(c);
    ChapterKeysBack(m, c);
    ChapterHeadingBack(m, c);
    ChapterListsBack(m, c);
    ChapterDefaults1Back(m, c);
    ChapterDefaults2Back(m, c);
    ChapterFromGroups(m, c);
  }

  // ---------------------------------------------------------------------------
  // What each validator accepts: exactly the inputs whose fields read as the
  // result, whatever other keys the input carries
  // ---------------------------------------------------------------------------

  lemma ItemAccepted(m: Fields, i: Item)
    ensures ValidateItem(RMap(m)) == Ok(i) <==> ItemFieldsAre(m, i)
  {
    if ItemFieldsAre(m, i) {
      assert RequiredStr(m, "id") == Ok(i.id);
      assert OptionalInt(m, "count", Some(1)) == Ok(i.count);
      assert OptionalFields(m, "components") == Ok(i.components);
    }
  }

  lemma ComponentAccepted(m: Fields, c: QuestComponent)
    ensures ValidateComponent(RMap(m)) == Ok(c) <==> ComponentFieldsAre(m, c)
  {
    if ComponentFieldsAre(m, c) {
      assert OptionalItem(m, "item") == Ok(c.item);
      assert OptionalCount(m, "count") == Ok(c.count);
    }
  }

  lemma CoordFieldRead(m: Fields, k: string, v: Coord)
    requires CoordFieldIs(m, k, v)
    ensures RequiredCoord(m, k) == Ok(v)
  {
  }

  lemma ListFieldRead<T>(m: Fields, k: string, validate: seq<Raw> -> Result<seq<T>>, v: seq<T>)
    requires validate([]) == Ok([])
    requires ListFieldIs(m, k, validate, v)
    ensures ListField(m, k).Ok? && validate(ListField(m, k).value) == Ok(v)
  {
  }

  lemma BoolFieldRead(m: Fields, k: string, default: Option<bool>, v: Option<bool>)
    requires BoolFieldIs(m, k, default, v)
    ensures OptionalBool(m, k, default) == Ok(v)
  {
  }

  lemma QuestAccepted(m: Fields, q: Quest)
    ensures ValidateQuest(RMap(m)) == Ok(q) <==> QuestFieldsAre(m, q)
  {
    if QuestFieldsAre(m, q) {
      CoordFieldRead(m, "x", q.x);
      CoordFieldRead(m, "y", q.y);
      ListFieldRead(m, "dependencies", ValidateStrings, q.dependencies);
      ListFieldRead(m, "tasks", ValidateTasks, q.tasks);
      ListFieldRead(m, "rewards", ValidateRewards, q.rewards);
      BoolFieldRead(m, "hide_details_until_startable", Some(false), q.hideDetailsUntilStartable);
      BoolFieldRead(m, "hide_dependency_lines", Some(false), q.hideDependencyLines);
      BoolFieldRead(m, "hide_lock_icon", Some(false), q.hideLockIcon);
      BoolFieldRead(m, "hide_text_until_complete", Some(false), q.hideTextUntilComplete);
      BoolFieldRead(m, "hide_until_deps_complete", Some(false), q.hideUntilDepsComplete);
      BoolFieldRead(m, "hide_until_deps_visible", Some(false), q.hideUntilDepsVisible);
    }
  }

  lemma ChapterHeadingAccepted(m: Fields, h: (Option<string>, Option<string>, Option<Item>))
    requires ChapterHeadingIs(m, h)
    ensures ChapterHeading(m) == Ok(h)
  {
    assert OptionalItem(m, "icon") == Ok(h.2);
  }

  lemma ChapterListsAccepted(m: Fields, l: (seq<string>, seq<Quest>))
    requires ChapterListsAre(m, l)
    ensures ChapterLists(m) == Ok(l)
  {
    ListFieldRead(m, "tags", ValidateStrings, l.0);
    ListFieldRead(m, "quests", ValidateQuests, l.1);
  }

  lemma StrFieldRead(m: Fields, k: string, default: Option<string>, v: Option<string>)
    requires StrFieldIs(m, k, default, v)
    ensures OptionalStr(m, k, default) == Ok(v)
  {
  }

  lemma ChapterDefaults1Accepted(m: Fields, d: (Option<bool>, Option<string>, Option<bool>, Option<bool>, Option<bool>))
    requires ChapterDefaults1Are(m, d)
    ensures ChapterDefaults1(m) == Ok(d)
  {
    BoolFieldRead(m, "disable_completion_toast", Some(false), d.0);
    StrFieldRead(m, "default_quest_shape", Some("circle"), d.1);
    BoolFieldRead(m, "default_hide_dependency_lines", Some(false), d.2);
    BoolFieldRead(m, "hide_quest_details_until_startable", Some(false), d.3);
    BoolFieldRead(m, "hide_quests_until_deps_visible", Some(false), d.4);
  }

  lemma ChapterDefaults2Accepted(m: Fields, d: (Option<string>, Option<string>, Option<bool>, Option<bool>, Option<bool>))
    requires ChapterDefaults2Are(m, d)
    ensures ChapterDefaults2(m) == Ok(d)
  {
    StrFieldRead(m, "autofocus_quest_id", None, d.0);
    StrFieldRead(m, "default_progression_mode", Some("linear"), d.1);
    BoolFieldRead(m, "default_repeatable_quest", Some(false), d.2);
    BoolFieldRead(m, "default_item_task_consume_items", Some(false), d.3);
    BoolFieldRead(m, "sequential_task_completion", Some(false), d.4);
  }

  lemma ChapterAccepted(m: Fields, c: Chapter)
    ensures ValidateChapter(RMap(m)) == Ok(c) <==> ChapterFieldsAre(m, c)
  {
    if ChapterFieldsAre(m, c) {
      assert ChapterKeyFields(m) == Ok((c.id, c.filename, c.group, c.orderIndex));
      ChapterHeadingAccepted(m, (c.title, c.subtitle, c.icon));
      ChapterListsAccepted(m, (c.tags, c.quests));
      ChapterDefaults1Accepted(m, (c.disableCompletionToast, c.defaultQuestShape, c.defaultHideDependencyLines,
                                   c.hideQuestDetailsUntilStartable, c.hideQuestsUntilDepsVisible));
      ChapterDefaults2Accepted(m, (c.autofocusQuestId, c.defaultProgressionMode, c.defaultRepeatableQuest,
                                   c.defaultItemTaskConsumeItems, c.sequentialTaskCompletion));
      ChapterFromGroups(m, c);
    }
  }

  /** A chapter holding a quest that fails validation is rejected as a
      whole. */
  lemma ChapterRejectsInvalidQuest(m: Fields, i: nat)
    requires "quests" in m && m["quests"].RList? && i < |m["quests"].items|
    requires ValidateQuest(m["quests"].items[i]).Err?
    ensures ValidateChapter(RMap(m)).Err?
  {
  }
}
