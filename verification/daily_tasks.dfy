/** The "Suggested Tasks for You" card: a fixed catalog of nine activities,
    each tagged with the risk levels it suits; the card shows the first three
    that suit the user's assessed level, all uncompleted, and completes them
    through the shared proof-of-activity dialog. */
module DailyTasks {
  import opened Common
  import opened TaskCompletion

  /** A catalog entry: the activity and the risk levels it is offered for. */
  datatype CatalogEntry = CatalogEntry(id: int, name: string, icon: string, risk: seq<Level>)

  /** A row of the card: catalog data plus the completion flag, nothing else. */
  type SuggestedTask = Task<()>

  /** `allTasks`, in declaration order. */
  const AllTasks: seq<CatalogEntry> := [
    MindfulMorning,
    DigitalDetox,
    NatureWalk,
    GratitudeJournal,
    HydrationHero,
    CreativeHour,
    MeditationMaster,
    ConnectWithAFriend,
    DeepBreathing
  ]

  const MindfulMorning := CatalogEntry(1, "Mindful Morning", "Sunrise", [Low, Medium])
  const DigitalDetox := CatalogEntry(2, "Digital Detox", "SmartphoneNfc", [Medium, High])
  const NatureWalk := CatalogEntry(3, "Nature Walk", "Mountain", [Low, Medium])
  const GratitudeJournal := CatalogEntry(4, "Gratitude Journal", "BookHeart", [Low, Medium, High])
  const HydrationHero := CatalogEntry(5, "Hydration Hero", "GlassWater", [Low])
  const CreativeHour := CatalogEntry(6, "Creative Hour", "Paintbrush", [Low, Medium])
  const MeditationMaster := CatalogEntry(7, "Meditation Master", "BrainCircuit", [Medium, High])
  const ConnectWithAFriend := CatalogEntry(8, "Connect with a Friend", "Users", [Medium, High])
  const DeepBreathing := CatalogEntry(9, "Deep Breathing", "Wind", [High])

  /** How many tasks the card shows at most (`slice(0, 3)`). */
  const Shown := 3

  /** `s` occurs in `t` in the same relative order, possibly with gaps. */
  predicate IsSubsequence<T(==)>(s: seq<T>, t: seq<T>)
    decreases |t|
  {
    if |s| == 0 then true
    else if |t| == 0 then false
    else (s[0] == t[0] && IsSubsequence(s[1..], t[1..])) || IsSubsequence(s, t[1..])
  }

  /** `catalog.filter(task => task.risk.includes(level))` */
  function Matching(catalog: seq<CatalogEntry>, level: Level): seq<CatalogEntry>
  {
    if |catalog| == 0 then []
    else (if level in catalog[0].risk then [catalog[0]] else []) + Matching(catalog[1..], level)
  }

  /** The filter keeps exactly the entries tagged with the level, in catalog order. */
  lemma {:induction false} MatchingSpec(catalog: seq<CatalogEntry>, level: Level)
    ensures forall e :: e in Matching(catalog, level) <==> e in catalog && level in e.risk
    ensures IsSubsequence(Matching(catalog, level), catalog)
    ensures |Matching(catalog, level)| <= |catalog|
  {
    if |catalog| > 0 {
      MatchingSpec(catalog[1..], level);
      var rest := Matching(catalog[1..], level);
      assert forall e :: e in catalog <==> e == catalog[0] || e in catalog[1..];
      if level in catalog[0].risk {
        assert ([catalog[0]] + rest)[1..] == rest;
      } else {
        assert Matching(catalog, level) == rest;
      }
    }
  }

  /** The filter keeps each tagged entry as many times as the catalog lists
      it, and no untagged entry at all. */
  lemma {:induction false} MatchingMultiplicity(catalog: seq<CatalogEntry>, level: Level)
    ensures forall e :: multiset(Matching(catalog, level))[e] == if level in e.risk then multiset(catalog)[e] else 0
  {
    if |catalog| > 0 {
      MatchingMultiplicity(catalog[1..], level);
      assert catalog == [catalog[0]] + catalog[1..];
      assert multiset(catalog) == multiset([catalog[0]]) + multiset(catalog[1..]);
      var pick := if level in catalog[0].risk then [catalog[0]] else [];
      assert multiset(Matching(catalog, level)) == multiset(pick) + multiset(Matching(catalog[1..], level));
    }
  }

  /** `slice(0, n)` */
  function Take<T>(s: seq<T>, n: nat): (r: seq<T>)
  {
    if n <= |s| then s[..n] else s
  }

  /** `map(({ id, name, icon }) => ({ id, name, icon, completed: false }))` */
  function Fresh(e: CatalogEntry): SuggestedTask
  {
    Task(e.id, e.name, e.icon, (), false)
  }

  /** The card's initial rows for a catalog: filter by level, keep the first
      `limit`, start them uncompleted. */
  function Select(catalog: seq<CatalogEntry>, level: Level, limit: nat): (r: seq<SuggestedTask>)
    // At most `limit` rows, and `limit` of them whenever that many entries match.
    ensures |r| == if |Matching(catalog, level)| < limit then |Matching(catalog, level)| else limit
    // Row i is the i-th matching entry in catalog order, with its id, name and icon.
    ensures forall i :: 0 <= i < |r| ==> r[i] == Fresh(Matching(catalog, level)[i])
    // Every row comes from a catalog entry tagged with the level and starts uncompleted.
    ensures forall i :: 0 <= i < |r| ==>
              exists e :: e in catalog && level in e.risk && r[i] == Fresh(e)
    ensures forall i :: 0 <= i < |r| ==> !r[i].completed
  {
    MatchingSpec(catalog, level);
    var chosen := Take(Matching(catalog, level), limit);
    var r := seq(|chosen|, i requires 0 <= i < |chosen| => Fresh(chosen[i]));
    assert forall i :: 0 <= i < |r| ==> chosen[i] in Matching(catalog, level);
    r
  }

  /** The rows the card starts with for the user's risk level. */
  function InitialTasks(level: Level): (r: seq<SuggestedTask>)
    ensures |r| <= Shown
    ensures forall i :: 0 <= i < |r| ==>
              exists e :: e in AllTasks && level in e.risk && r[i] == Fresh(e)
    ensures forall i :: 0 <= i < |r| ==> !r[i].completed
  {
    Select(AllTasks, level, Shown)
  }

  function Ids(tasks: seq<SuggestedTask>): seq<int>
  {
    seq(|tasks|, i requires 0 <= i < |tasks| => tasks[i].id)
  }

  /** The part of the filter's output contributed by one entry. */
  function Pick(e: CatalogEntry, level: Level): seq<CatalogEntry>
  {
    if level in e.risk then [e] else []
  }

  /** The filter over a suffix of the catalog, one entry at a time. */
  lemma MatchingSuffix(k: nat, level: Level)
    requires k < |AllTasks|
    ensures Matching(AllTasks[k..], level) == Pick(AllTasks[k], level) + Matching(AllTasks[k + 1..], level)
  {
    assert AllTasks[k..][1..] == AllTasks[k + 1..];
  }

  /** For each level: how many catalog entries carry it, and the first three
      of them, walking the catalog one entry at a time. */
  lemma MatchingLow()
    ensures var m := Matching(AllTasks, Low);
            |m| == 5 && m[0] == MindfulMorning && m[1] == NatureWalk && m[2] == GratitudeJournal
  {
    assert AllTasks[9..] == [];
    MatchingSuffix(8, Low); MatchingSuffix(7, Low); MatchingSuffix(6, Low);
    MatchingSuffix(5, Low); MatchingSuffix(4, Low); MatchingSuffix(3, Low);
    MatchingSuffix(2, Low); MatchingSuffix(1, Low); MatchingSuffix(0, Low);
    assert AllTasks[0..] == AllTasks;
  }

  lemma MatchingMedium()
    ensures var m := Matching(AllTasks, Medium);
            |m| == 7 && m[0] == MindfulMorning && m[1] == DigitalDetox && m[2] == NatureWalk
  {
    assert AllTasks[9..] == [];
    MatchingSuffix(8, Medium); MatchingSuffix(7, Medium); MatchingSuffix(6, Medium);
    MatchingSuffix(5, Medium); MatchingSuffix(4, Medium); MatchingSuffix(3, Medium);
    MatchingSuffix(2, Medium); MatchingSuffix(1, Medium); MatchingSuffix(0, Medium);
    assert AllTasks[0..] == AllTasks;
  }

  lemma MatchingHigh()
    ensures var m := Matching(AllTasks, High);
            |m| == 5 && m[0] == DigitalDetox && m[1] == GratitudeJournal && m[2] == MeditationMaster
  {
    assert AllTasks[9..] == [];
    MatchingSuffix(8, High); MatchingSuffix(7, High); MatchingSuffix(6, High);
    MatchingSuffix(5, High); MatchingSuffix(4, High); MatchingSuffix(3, High);
    MatchingSuffix(2, High); MatchingSuffix(1, High); MatchingSuffix(0, High);
    assert AllTasks[0..] == AllTasks;
  }

  /** With at least three matches, the card shows the first three. */
  lemma IdsOfFirstThree(catalog: seq<CatalogEntry>, level: Level)
    requires |Matching(catalog, level)| >= Shown
    ensures var m := Matching(catalog, level);
            Ids(Select(catalog, level, Shown)) == [m[0].id, m[1].id, m[2].id]
  {
    var m := Matching(catalog, level);
    var r := Select(catalog, level, Shown);
    assert |r| == Shown;
    assert r[0].id == m[0].id && r[1].id == m[1].id && r[2].id == m[2].id;
    assert Ids(r) == [r[0].id, r[1].id, r[2].id];
  }

  lemma InitialTasksLow()
    ensures |InitialTasks(Low)| == Shown && Ids(InitialTasks(Low)) == [1, 3, 4]
  {
    MatchingLow();
    IdsOfFirstThree(AllTasks, Low);
  }

  lemma InitialTasksMedium()
    ensures |InitialTasks(Medium)| == Shown && Ids(InitialTasks(Medium)) == [1, 2, 3]
  {
    MatchingMedium();
    IdsOfFirstThree(AllTasks, Medium);
  }

  lemma InitialTasksHigh()
    ensures |InitialTasks(High)| == Shown && Ids(InitialTasks(High)) == [2, 4, 7]
  {
    MatchingHigh();
    IdsOfFirstThree(AllTasks, High);
  }

  /** Every level is served by at least three catalog entries, so the card
      always shows exactly three rows; for each level these are the first
      three tagged entries of the catalog. */
  lemma InitialTasksPerLevel()
    ensures Ids(InitialTasks(Low)) == [1, 3, 4]
    ensures Ids(InitialTasks(Medium)) == [1, 2, 3]
    ensures Ids(InitialTasks(High)) == [2, 4, 7]
    ensures forall level :: |InitialTasks(level)| == Shown
  {
    InitialTasksLow();
    InitialTasksMedium();
    InitialTasksHigh();
    forall level ensures |InitialTasks(level)| == Shown {
      match level
      case Low =>
      case Medium =>
      case High =>
    }
  }

  /** The card component's state for an assessed level: the dialog closed
      around the initial selection. */
  function Card(level: Level): (d: Dialog<()>)
    ensures d.tasks == InitialTasks(level) && !d.open && d.selected.None?
  {
    Closed(InitialTasks(level))
  }
}
