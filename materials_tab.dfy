/** The materials page (components/MaterialsTab.tsx): the assessment form with its history,
    the story generator with its history, and the filtered resource catalogue. */
module MaterialsTab {
  import opened Wrappers
  import opened Utf16
  import opened Lists
  import opened Types
  import opened GeminiService

  // ---------------------------------------------------------------------------
  // Assessments
  // ---------------------------------------------------------------------------

  /** A saved assessment: the form as submitted and the report it produced. */
  datatype AssessmentRecord = AssessmentRecord(id: int, timestamp: int, data: AssessmentData, analysis: Str)

  /** The key `deleteHistoryItem` compares. */
  function AssessmentId(r: AssessmentRecord): int { r.id }

  /** How a submit ended: refused for want of a name, with a report, or with a failed call. */
  datatype SubmitOutcome = MissingName | Analysed | AnalysisFailed

  /** `toggleConcern`: a concern that is ticked is unticked (every copy of it), any other is
      ticked by adding it at the end. */
  function Toggled(concerns: seq<Str>, c: Str): (r: seq<Str>)
    ensures c in concerns ==> c !in r && forall x :: x in r <==> x in concerns && x != c
    ensures c in concerns ==> r == Filter(concerns, x => x != c)
    ensures c !in concerns ==> r == concerns + [c]
  {
    if c in concerns then
      var kept := Filter(concerns, x => x != c);
      assert forall i | 0 <= i < |kept| :: kept[i] != c;
      kept
    else concerns + [c]
  }

  /** Ticking a concern and unticking it gives back the list it started from. */
  lemma ToggledTwice(concerns: seq<Str>, c: Str)
    requires c !in concerns
    ensures Toggled(Toggled(concerns, c), c) == concerns
  {
    FilterKeepsAll(concerns, x => x != c);
    FilterAppend(concerns, [c], x => x != c);
  }

  /** Unticking and ticking again moves the concern to the end of the list. */
  lemma ToggledTwiceMoves(concerns: seq<Str>, c: Str)
    requires c in concerns
    ensures Toggled(Toggled(concerns, c), c) == Filter(concerns, x => x != c) + [c]
  {
  }

  /** The form's starting values. */
  const InitialData: AssessmentData := AssessmentData(
    [], 7, Units("男"), Units("一般"), Units("适中"), Units("一般"), [], [], [], [])

  class AssessmentSection {
    var data: AssessmentData
    var analysis: Option<Str>
    var loading: bool
    var history: seq<AssessmentRecord>

    /** As mounted, before the stored history is read (that read is I/O). */
    constructor ()
      ensures data == InitialData && analysis == None && !loading && history == []
    {
      data := InitialData;
      analysis := None;
      loading := false;
      history := [];
    }

    /** The submit button, with `reply` standing for the provider's answer and `id`, `now` for
        the clock. Without a name nothing is sent; a report is shown and saved in front of the
        history; a failed call saves nothing. */
    method HandleSubmit(id: int, now: int, reply: TextReply) returns (outcome: SubmitOutcome)
      modifies this
      ensures data == old(data)
      ensures data.childName == [] ==>
        outcome == MissingName && analysis == old(analysis) && history == old(history) && loading == old(loading)
      ensures data.childName != [] ==> !loading && outcome != MissingName
      ensures data.childName != [] ==>
        match AnalyzeAssessment(reply)
        case Success(report) =>
          && outcome == Analysed
          && analysis == Some(report)
          && history == [AssessmentRecord(id, now, data, report)] + old(history)
        case Failure(_) =>
          outcome == AnalysisFailed && analysis == old(analysis) && history == old(history)
    {
      if data.childName == [] {
        return MissingName;
      }
      loading := true;
      match AnalyzeAssessment(reply) {
        case Success(report) =>
          analysis := Some(report);
          history := [AssessmentRecord(id, now, data, report)] + history;
          outcome := Analysed;
        case Failure(_) =>
          outcome := AnalysisFailed;
      }
      loading := false;
    }

    /** A concern checkbox. */
    method ToggleConcern(c: Str)
      modifies this
      ensures data == old(data).(concerns := Toggled(old(data).concerns, c))
      ensures analysis == old(analysis) && loading == old(loading) && history == old(history)
    {
      data := data.(concerns := Toggled(data.concerns, c));
    }

    /** The delete button of a saved assessment. */
    method DeleteHistoryItem(id: int)
      modifies this
      ensures history == Without(old(history), AssessmentId, id)
      ensures data == old(data) && analysis == old(analysis) && loading == old(loading)
    {
      history := Without(history, AssessmentId, id);
    }

    /** Opening a saved assessment brings back its form and its report. */
    method LoadHistoryItem(item: AssessmentRecord)
      modifies this
      ensures data == item.data && analysis == Some(item.analysis)
      ensures loading == old(loading) && history == old(history)
    {
      data := item.data;
      analysis := Some(item.analysis);
    }
  }

  // ---------------------------------------------------------------------------
  // Stories
  // ---------------------------------------------------------------------------

  /** A saved story with the theme, length and tone it was asked for. */
  datatype StoryRecord = StoryRecord(id: int, timestamp: int, story: StoryData, theme: Str, length: Str, tone: Str)

  /** The key `deleteFromHistory` compares. */
  function StoryId(r: StoryRecord): int { r.id }

  /** Every story is written for this age group. */
  const AgeGroup: Str := Units("7-12岁")
  const Medium: Str := Units("medium")
  const Warm: Str := Units("warm")

  class StorySection {
    var theme: Str
    var story: Option<StoryData>
    var loading: bool
    var storyLength: Str
    var storyTone: Str
    var history: seq<StoryRecord>

    /** As mounted, before the stored history is read (that read is I/O). */
    constructor ()
      ensures theme == [] && story == None && !loading && storyLength == Medium && storyTone == Warm && history == []
    {
      theme := [];
      story := None;
      loading := false;
      storyLength := Medium;
      storyTone := Warm;
      history := [];
    }

    /** The write button, with `answer` standing for what `generateStory` returned
        (`GenerateStory` of the provider's reply). Only an empty theme is refused (white space
        is sent as it is); a story is shown and saved in front of the history together with
        the inputs that produced it; a failed call saves nothing and raises the failure alert. */
    method HandleGenerate(id: int, now: int, answer: Result<StoryData, ServiceError>)
      returns (request: Option<StoryRequest>, alerted: bool)
      modifies this
      ensures alerted <==> theme != [] && answer.Failure?
      ensures theme == old(theme) && storyLength == old(storyLength) && storyTone == old(storyTone)
      ensures theme == [] ==>
        request == None && story == old(story) && history == old(history) && loading == old(loading)
      ensures theme != [] ==>
        && request == Some(StoryRequestFor(theme, AgeGroup, storyLength, storyTone))
        && !loading
      ensures theme != [] && answer.Success? ==>
        story == Some(answer.value) && history == [StoryRecord(id, now, answer.value, theme, storyLength, storyTone)] + old(history)
      ensures theme != [] && answer.Failure? ==>
        story == old(story) && history == old(history)
    {
      if theme == [] {
        return None, false;
      }
      loading := true;
      request := Some(StoryRequestFor(theme, AgeGroup, storyLength, storyTone));
      alerted := answer.Failure?;
      if answer.Success? {
        story := Some(answer.value);
        history := [StoryRecord(id, now, answer.value, theme, storyLength, storyTone)] + history;
      }
      loading := false;
    }

    /** The delete button of a saved story. */
    method DeleteFromHistory(id: int)
      modifies this
      ensures history == Without(old(history), StoryId, id)
      ensures theme == old(theme) && story == old(story) && loading == old(loading)
      ensures storyLength == old(storyLength) && storyTone == old(storyTone)
    {
      history := Without(history, StoryId, id);
    }

    /** Opening a saved story brings back the story and the inputs it was written from. */
    method LoadFromHistory(item: StoryRecord)
      modifies this
      ensures theme == item.theme && storyLength == item.length && storyTone == item.tone
      ensures story == Some(item.story)
      ensures loading == old(loading) && history == old(history)
    {
      theme := item.theme;
      storyLength := item.length;
      storyTone := item.tone;
      story := Some(item.story);
    }
  }

  // ---------------------------------------------------------------------------
  // Resources
  // ---------------------------------------------------------------------------

  /** The filter that shows everything. */
  const ShowAll: Str := Units("全部")

  /** The fixed reading-material catalogue. */
  const Catalogue: seq<Resource> := [
    Resource(1, Units("怎么知道我不开心？"), [Units("自我认知")], Guide, AllAges, Units("学会认识自己的小情绪，是快乐的第一步。")),
    Resource(2, Units("信任游戏：我们要团结"), [Units("班级活动")], Activity, AllAges, Units("和同学们一起玩游戏，变成好朋友。")),
    Resource(3, Units("深呼吸，我不生气"), [Units("情绪管理")], Technique, AllAges, Units("当我们想发火的时候，试着这样做...")),
    Resource(4, Units("给爸爸妈妈写封信"), [Units("沟通技巧")], Tool, AllAges, Units("虽然他们不在身边，但爱一直都在。")),
    Resource(5, Units("为什么我会害羞？"), [Units("自我认知")], Guide, AllAges, Units("其实每个人都会害羞，这很正常哦。")),
    Resource(6, Units("每天夸夸自己"), [Units("自信建立")], Technique, AllAges, Units("找找自己身上的闪光点，你很棒！")),
    Resource(7, Units("青春期身体的变化"), [Units("生理健康")], Guide, Teen, Units("了解身体成长的秘密，不害怕。")),
    Resource(8, Units("如何拒绝别人？"), [Units("社交技能")], Technique, AllAges, Units("学会说'不'，保护自己的边界。")),
    Resource(9, Units("对抗网瘾小妙招"), [Units("自律")], Tool, Teen, Units("放下手机，发现真实世界的美好。")),
    Resource(10, Units("考前焦虑怎么办？"), [Units("学习压力")], Guide, Teen, Units("掌握放松技巧，轻松应对考试挑战。")),
    Resource(11, Units("我的梦想清单"), [Units("未来规划")], Tool, AllAges, Units("画出你的梦想，一步步去实现它。")),
    Resource(12, Units("假如我是他/她"), [Units("同理心")], Activity, AllAges, Units("换位思考游戏，学会理解别人的感受。"))
  ]

  /** `resources.map(r => r.tags)`: the map step of `flatMap`, whose flattening is `Flatten`. */
  function AllTagLists(resources: seq<Resource>): (tags: seq<seq<Str>>)
    ensures |tags| == |resources|
    ensures forall i | 0 <= i < |resources| :: tags[i] == resources[i].tags
  {
    seq(|resources|, i requires 0 <= i < |resources| => resources[i].tags)
  }

  /** The filter buttons: "全部", then every tag once, in the order tags first appear. */
  function AllTags(resources: seq<Resource>): (tags: seq<Str>)
    ensures tags != [] && tags[0] == ShowAll
    ensures forall i, j | 0 <= i < |resources| && 0 <= j < |resources[i].tags| :: resources[i].tags[j] in tags
    ensures NoDuplicates(tags[1..])
    ensures forall k | 1 <= k < |tags| :: tags[k] in Flatten(AllTagLists(resources))
    ensures OrderedIn(tags[1..], Flatten(AllTagLists(resources)))
  {
    var all := Flatten(AllTagLists(resources));
    forall i, j | 0 <= i < |resources| && 0 <= j < |resources[i].tags|
      ensures resources[i].tags[j] in all
    {
      FlattenHas(AllTagLists(resources), i, j);
    }
    var tags := [ShowAll] + Distinct(all);
    assert tags[1..] == Distinct(all);
    tags
  }

  /** `r => r.tags.includes(filter)`. */
  function TaggedWith(filter: Str): Resource -> bool {
    (r: Resource) => filter in r.tags
  }

  /** The resources shown under a filter: all of them for "全部", otherwise those tagged with it. */
  function Filtered(resources: seq<Resource>, filter: Str): (shown: seq<Resource>)
    ensures filter == ShowAll ==> shown == resources
    ensures filter != ShowAll ==> forall i | 0 <= i < |shown| :: filter in shown[i].tags && shown[i] in resources
    ensures filter != ShowAll ==> forall i | 0 <= i < |resources| :: filter in resources[i].tags ==> resources[i] in shown
  {
    if filter == ShowAll then resources else Filter(resources, TaggedWith(filter))
  }

  /** A filter shows its resources in catalogue order. */
  lemma FilteredKeepsOrder(resources: seq<Resource>, filter: Str)
    requires NoDuplicates(resources)
    ensures OrderedIn(Filtered(resources, filter), resources)
  {
    if filter != ShowAll {
      FilterKeepsOrder(resources, TaggedWith(filter));
    } else {
      forall i, j | 0 <= i < j < |resources| ensures FirstIndex(resources, resources[i]) < FirstIndex(resources, resources[j]) {
        assert FirstIndex(resources, resources[i]) == i;
        assert FirstIndex(resources, resources[j]) == j;
      }
    }
  }

  /** No two catalogue entries are alike: their ids run from 1 to 12. */
  lemma CatalogueDistinct()
    ensures NoDuplicates(Catalogue)
  {
    assert forall i | 0 <= i < |Catalogue| :: Catalogue[i].id == i + 1;
  }

  /** Every filter shows the catalogue's entries in catalogue order. */
  lemma CatalogueFilterInOrder(filter: Str)
    ensures OrderedIn(Filtered(Catalogue, filter), Catalogue)
  {
    CatalogueDistinct();
    FilteredKeepsOrder(Catalogue, filter);
  }
}
