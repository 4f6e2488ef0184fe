/** The "Today's Progress" tracker: one row per soul-sprint badge, each worth
    a random XP reward, completed through the shared proof-of-activity dialog,
    with a completed count and a completion percentage. */
module TodaysProgress {
  import opened Common
  import opened TaskCompletion

  /** A soul-sprint badge as listed in the app's fixture data. */
  datatype Badge = Badge(id: int, name: string, icon: string)

  /** A row of the tracker: badge data, its XP reward, the completion flag. */
  type ProgressTask = Task<int>

  /** `soulSprintBadges` */
  const SoulSprintBadges: seq<Badge> := [
    Badge(1, "Mindful Morning", "Sunrise"),
    Badge(2, "Digital Detox", "SmartphoneNfc"),
    Badge(3, "Nature Walk", "Mountain"),
    Badge(4, "Gratitude Journal", "BookHeart"),
    Badge(5, "Hydration Hero", "GlassWater"),
    Badge(6, "Creative Hour", "Paintbrush"),
    Badge(7, "Meditation Master", "BrainCircuit")
  ]

  const MinXp := 10
  const MaxXp := 29

  /** A value of `Math.random()`: a real in [0, 1). */
  predicate IsDraw(r: real)
  {
    0.0 <= r < 1.0
  }

  /** `Math.floor(draw * 20) + 10` */
  function XpFromDraw(draw: real): (xp: int)
    requires IsDraw(draw)
    ensures MinXp <= xp <= MaxXp
  {
    (draw * 20.0).Floor + 10
  }

  /** Every reward in [10, 29] is produced by some draw, so the seeded XP
      ranges over exactly that interval. */
  lemma XpRangeCovered(xp: int)
    requires MinXp <= xp <= MaxXp
    ensures IsDraw((xp - 10) as real / 20.0)
    ensures XpFromDraw((xp - 10) as real / 20.0) == xp
  {
    var d := (xp - 10) as real / 20.0;
    assert d * 20.0 == (xp - 10) as real;
  }

  /** The rows seeded from the badges (the effect run on mount), with one
      random draw per badge. */
  function Seed(badges: seq<Badge>, draws: seq<real>): (r: seq<ProgressTask>)
    requires |draws| == |badges|
    requires forall i :: 0 <= i < |draws| ==> IsDraw(draws[i])
    ensures |r| == |badges|
    ensures forall i :: 0 <= i < |r| ==>
              && r[i].id == badges[i].id && r[i].name == badges[i].name && r[i].icon == badges[i].icon
              && MinXp <= r[i].extra <= MaxXp
              && !r[i].completed
  {
    seq(|badges|, i requires 0 <= i < |badges| =>
      Task(badges[i].id, badges[i].name, badges[i].icon, XpFromDraw(draws[i]), false))
  }

  /** Conversely, any list of badge rows with rewards in [10, 29], none
      completed, is a possible seeding: the draws are a free choice. */
  lemma SeedComplete(badges: seq<Badge>, xps: seq<int>)
    requires |xps| == |badges|
    requires forall i :: 0 <= i < |xps| ==> MinXp <= xps[i] <= MaxXp
    ensures var draws := seq(|xps|, i requires 0 <= i < |xps| => (xps[i] - 10) as real / 20.0);
            && (forall i :: 0 <= i < |draws| ==> IsDraw(draws[i]))
            && Seed(badges, draws)
               == seq(|badges|, i requires 0 <= i < |badges| =>
                    Task(badges[i].id, badges[i].name, badges[i].icon, xps[i], false))
  {
    var draws := seq(|xps|, i requires 0 <= i < |xps| => (xps[i] - 10) as real / 20.0);
    forall i | 0 <= i < |xps| ensures IsDraw(draws[i]) && XpFromDraw(draws[i]) == xps[i] {
      XpRangeCovered(xps[i]);
    }
  }

  /** `totalTasks > 0 ? (completedTasks / totalTasks) * 100 : 0`, exactly. */
  function Progress(tasks: seq<ProgressTask>): real
  {
    if |tasks| > 0 then (CompletedCount(tasks) as real / |tasks| as real) * 100.0 else 0.0
  }

  /** The percentage lies in [0, 100]; it is 0 exactly when nothing is
      completed (in particular with no rows) and 100 exactly when there are
      rows and all of them are completed. */
  lemma ProgressBounds(tasks: seq<ProgressTask>)
    ensures 0.0 <= Progress(tasks) <= 100.0
    ensures Progress(tasks) == 0.0 <==> forall i :: 0 <= i < |tasks| ==> !tasks[i].completed
    ensures Progress(tasks) == 100.0 <==> |tasks| > 0 && forall i :: 0 <= i < |tasks| ==> tasks[i].completed
  {
    CompletedCountZero(tasks);
    CompletedCountFull(tasks);
    if |tasks| > 0 {
      var c := CompletedCount(tasks) as real;
      var n := |tasks| as real;
      assert c <= n;
      RatioFacts(c, n);
    }
  }

  /** c / n * 100 for 0 <= c <= n and n > 0. */
  lemma RatioFacts(c: real, n: real)
    requires 0.0 <= c <= n && n > 0.0
    ensures 0.0 <= (c / n) * 100.0 <= 100.0
    ensures (c / n) * 100.0 == 0.0 <==> c == 0.0
    ensures (c / n) * 100.0 == 100.0 <==> c == n
  {
    var q := c / n;
    assert q * n == c;
  }

  /** c / n * 100 grows with c. */
  lemma RatioMonotone(c: real, c': real, n: real)
    requires 0.0 <= c <= c' && n > 0.0
    ensures (c / n) * 100.0 <= (c' / n) * 100.0
  {
    assert c' / n - c / n == (c' - c) / n;
  }

  /** A valid proof can only raise the percentage. */
  lemma ProgressMonotone(tasks: seq<ProgressTask>, id: int)
    ensures Progress(MarkCompleted(tasks, id)) >= Progress(tasks)
  {
    MarkCompletedCount(tasks, id);
    MarkCompletedOnlyTarget(tasks, id);
    var marked := MarkCompleted(tasks, id);
    if |tasks| > 0 {
      RatioMonotone(CompletedCount(tasks) as real, CompletedCount(marked) as real, |tasks| as real);
    }
  }

  /** The tracker once its rows are seeded: the dialog closed around them. */
  function Tracker(draws: seq<real>): (d: Dialog<int>)
    requires |draws| == |SoulSprintBadges|
    requires forall i :: 0 <= i < |draws| ==> IsDraw(draws[i])
    ensures d.tasks == Seed(SoulSprintBadges, draws)
    ensures |d.tasks| == |SoulSprintBadges| && !d.open && d.selected.None?
    ensures CompletedCount(d.tasks) == 0 && Progress(d.tasks) == 0.0
  {
    var tasks := Seed(SoulSprintBadges, draws);
    CompletedCountZero(tasks);
    Closed(tasks)
  }
}
