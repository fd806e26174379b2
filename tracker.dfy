/** The training tracker page: a fixed weekly schedule over ten weeks, an icon
    per day derived from its training types and completion flags, completion
    buttons, and the per-session state of which days are done and which weeks
    are expanded. */
module Tracker {
  import opened Categories
  import opened Text

  /** The seven Swedish weekday names, Monday first. */
  const Days: seq<string> := ["måndag", "tisdag", "onsdag", "torsdag", "fredag", "lördag", "söndag"]

  lemma DaysDistinct()
    ensures |Days| == 7
    ensures forall i, j :: 0 <= i < j < |Days| ==> Days[i] != Days[j]
  {
  }

  /** The week numbers the tracker shows: the ten weeks 1 to 10, in order. */
  function WeekNumbers(): (ws: seq<int>)
    ensures |ws| == 10
    ensures forall i :: 0 <= i < |ws| ==> ws[i] == i + 1
  {
    seq(10, i => i + 1)
  }

  /** The tracker covers exactly the weeks 1 to 10. */
  lemma WeekRange(w: int)
    ensures w in WeekNumbers() <==> 1 <= w <= 10
  {
    if 1 <= w <= 10 {
      assert WeekNumbers()[w - 1] == w;
    }
  }

  /** The schedule as a table, one row per weekday, Monday first: abs work on
      Monday, Wednesday and Friday, a challenge on Tuesday and Thursday, only
      the daily session on Saturday, and rest on Sunday. */
  const WeekPlan: seq<seq<Category>> := [
    [Daily, Mag], [Daily, Challenge], [Daily, Mag], [Daily, Challenge], [Daily, Mag], [Daily], [Rest]
  ]

  /** The rest day has no other type, and every other day starts with the
      daily session. */
  predicate WellFormedDay(types: seq<Category>)
  {
    (Rest in types ==> types == [Rest]) && (Rest !in types ==> |types| > 0 && types[0] == Daily)
  }

  /** Every row of the plan is well formed, and only Sunday's row rests. */
  lemma PlanRow(i: nat)
    requires i < |WeekPlan|
    ensures WellFormedDay(WeekPlan[i])
    ensures Rest in WeekPlan[i] <==> i == 6
  {
  }

  /** Builds the day-to-types map for one week the way the page does, one day
      at a time. The week number is not consulted, so every week gets the same
      schedule: exactly the seven weekdays, each mapped to its row of WeekPlan,
      Sunday alone is a rest day and no rest day has another type. */
  method WeekStructure(week: int) returns (structure: map<string, seq<Category>>)
    ensures forall d :: d in structure <==> d in Days
    ensures forall i :: 0 <= i < |Days| ==> structure[Days[i]] == WeekPlan[i]
    ensures forall d :: d in structure ==> WellFormedDay(structure[d])
    ensures forall d :: d in structure ==> (Rest in structure[d] <==> d == Days[6])
  {
    DaysDistinct();
    structure := map[];
    var index := 0;
    while index < |Days|
      invariant 0 <= index <= |Days|
      invariant forall d :: d in structure <==> d in Days[..index]
      invariant forall i :: 0 <= i < index ==> structure[Days[i]] == WeekPlan[i]
    {
      var dayTypes := [Daily];
      if index == 6 {
        dayTypes := [Rest] + dayTypes[1..];
      }
      if index == 0 || index == 2 || index == 4 {
        dayTypes := dayTypes + [Mag];
      }
      if index == 1 || index == 3 {
        dayTypes := dayTypes + [Challenge];
      }
      assert dayTypes == WeekPlan[index];
      assert Days[..index + 1] == Days[..index] + [Days[index]];
      structure := structure[Days[index] := dayTypes];
      index := index + 1;
    }
    assert Days[..index] == Days;
    forall d | d in structure
      ensures WellFormedDay(structure[d]) && (Rest in structure[d] <==> d == Days[6])
    {
      var i :| 0 <= i < |Days| && Days[i] == d;
      PlanRow(i);
    }
  }

  /** The completion flags of one day. An entry written by `markCompleted`
      may lack fields; a missing field reads as false everywhere it is used,
      so it is modelled as false. */
  datatype DayProgress = DayProgress(daily: bool, mag: bool, challenge: bool, rest: bool)

  /** The flags of a day nothing has been recorded for. */
  const NoProgress: DayProgress := DayProgress(false, false, false, false)

  /** The flag of one type. */
  function Flag(p: DayProgress, c: Category): bool
  {
    match c
    case Daily => p.daily
    case Mag => p.mag
    case Challenge => p.challenge
    case Rest => p.rest
  }

  /** A copy of `p` with the flag for `c` set and the other flags kept. */
  function WithFlag(p: DayProgress, c: Category): (q: DayProgress)
    ensures Flag(q, c)
    ensures forall c' :: c' != c ==> Flag(q, c') == Flag(p, c')
  {
    match c
    case Daily => p.(daily := true)
    case Mag => p.(mag := true)
    case Challenge => p.(challenge := true)
    case Rest => p.(rest := true)
  }

  /** The kinds, in the order daily, mag, challenge, that are assigned in
      `types` and whose flag equals `want`. */
  function Select(types: seq<Category>, p: DayProgress, want: bool): (r: seq<Kind>)
    ensures forall k: Kind :: k in r <==> k in types && Flag(p, k) == want
    ensures forall i, j :: 0 <= i < j < |r| ==> Rank(r[i]) < Rank(r[j])
  {
    (if Daily in types && Flag(p, Daily) == want then [Daily] else []) +
    (if Mag in types && Flag(p, Mag) == want then [Mag] else []) +
    (if Challenge in types && Flag(p, Challenge) == want then [Challenge] else [])
  }

  /** The kinds of a day that are assigned and done, in the order daily, mag,
      challenge. */
  function Earned(types: seq<Category>, p: DayProgress): seq<Kind>
  {
    Select(types, p, true)
  }

  /** The glyph strings of a list of kinds. */
  function Glyphs(ks: seq<Kind>): (gs: seq<string>)
    ensures |gs| == |ks|
    ensures forall i :: 0 <= i < |ks| ==> gs[i] == Glyph(ks[i])
  {
    seq(|ks|, i requires 0 <= i < |ks| => Glyph(ks[i]))
  }

  /** The icon of a day: the rest glyph on a rest day, otherwise the glyphs of
      the earned kinds joined by spaces, or the pending glyph if there are none. */
  function IconText(types: seq<Category>, p: DayProgress): string
  {
    if Rest in types then RestIcon
    else
      var earned := Earned(types, p);
      if earned == [] then PendingIcon else Join(Glyphs(earned), " ")
  }

  /** Computes the icon the way the page does, collecting glyphs in a local list. */
  method GetIcon(dayTypes: seq<Category>, progress: DayProgress) returns (icon: string)
    ensures icon == IconText(dayTypes, progress)
  {
    if Rest in dayTypes {
      return RestIcon;
    }
    var icons: seq<string> := [];
    if Daily in dayTypes && progress.daily {
      icons := icons + [Glyph(Daily)];
    }
    if Mag in dayTypes && progress.mag {
      icons := icons + [Glyph(Mag)];
    }
    if Challenge in dayTypes && progress.challenge {
      icons := icons + [Glyph(Challenge)];
    }
    assert icons == Glyphs(Earned(dayTypes, progress));
    icon := if |icons| > 0 then Join(icons, " ") else PendingIcon;
  }

  /** A rest day shows the rest glyph whatever its flags say. */
  lemma RestDayIcon(types: seq<Category>, p: DayProgress, q: DayProgress)
    requires Rest in types
    ensures IconText(types, p) == IconText(types, q) == RestIcon
  {
  }

  /** On a day that is not a rest day, a kind's glyph shows in the icon
      exactly when the kind is assigned and its flag is set. */
  lemma IconShowsGlyph(types: seq<Category>, p: DayProgress, k: Kind)
    requires Rest !in types
    ensures GlyphChar(k) in IconText(types, p) <==> k in types && Flag(p, k)
  {
    var earned := Earned(types, p);
    if earned != [] {
      var gs := Glyphs(earned);
      JoinSinglesMembers(gs, ' ', GlyphChar(k));
      if exists i :: 0 <= i < |gs| && gs[i][0] == GlyphChar(k) {
        var i :| 0 <= i < |gs| && gs[i][0] == GlyphChar(k);
        GlyphInjective(earned[i], k);
      }
      if k in earned {
        var i :| 0 <= i < |earned| && earned[i] == k;
        assert gs[i][0] == GlyphChar(k);
      }
    }
  }

  /** On a day that is not a rest day, the pending glyph is shown exactly when
      no assigned kind is done. */
  lemma IconPendingIff(types: seq<Category>, p: DayProgress)
    requires Rest !in types
    ensures IconText(types, p) == PendingIcon <==> forall k: Kind :: !(k in types && Flag(p, k))
  {
  }

  /** The icon lists the earned glyphs in the order daily, mag, challenge,
      separated by single spaces: the glyph at position `2 i` belongs to the
      `i`-th earned kind, every odd position holds a space, and the earned
      kinds have strictly increasing rank. */
  lemma IconOrdered(types: seq<Category>, p: DayProgress)
    requires Rest !in types && Earned(types, p) != []
    ensures |IconText(types, p)| == 2 * |Earned(types, p)| - 1
    ensures forall i :: 0 <= i < |Earned(types, p)| ==>
              IconText(types, p)[2 * i] == GlyphChar(Earned(types, p)[i])
    ensures forall j :: 0 <= j < |IconText(types, p)| && j % 2 == 1 ==> IconText(types, p)[j] == ' '
    ensures forall i, j :: 0 <= i < j < |Earned(types, p)| ==>
              Rank(Earned(types, p)[i]) < Rank(Earned(types, p)[j])
  {
    JoinSingles(Glyphs(Earned(types, p)), ' ');
  }

  /** The completion buttons the page offers for a day: none on a rest day,
      otherwise one per assigned kind not yet done, in the order daily, mag,
      challenge. */
  function Offered(types: seq<Category>, p: DayProgress): seq<Kind>
  {
    if Rest in types then [] else Select(types, p, false)
  }

  /** Collects the completion buttons the way the page renders them: nothing
      on a rest day, then one button per assigned kind that is not yet done. */
  method CompletionButtons(dayTypes: seq<Category>, progress: DayProgress) returns (buttons: seq<Kind>)
    ensures buttons == Offered(dayTypes, progress)
  {
    buttons := [];
    if Rest !in dayTypes {
      if Daily in dayTypes && !progress.daily {
        buttons := buttons + [Daily];
      }
      if Mag in dayTypes && !progress.mag {
        buttons := buttons + [Mag];
      }
      if Challenge in dayTypes && !progress.challenge {
        buttons := buttons + [Challenge];
      }
    }
  }

  /** On a day that is not a rest day every assigned kind is either offered
      as a button or shown as earned, never both. */
  lemma OfferedOrEarned(types: seq<Category>, p: DayProgress, k: Kind)
    requires Rest !in types
    ensures k in types <==> k in Offered(types, p) || k in Earned(types, p)
    ensures !(k in Offered(types, p) && k in Earned(types, p))
  {
  }

  /** Pressing an offered button removes that button, turns the kind into an
      earned one and leaves the other buttons in place. */
  lemma MarkingOffered(types: seq<Category>, p: DayProgress, k: Kind)
    requires k in Offered(types, p)
    ensures k !in Offered(types, WithFlag(p, k)) && k in Earned(types, WithFlag(p, k))
    ensures forall k': Kind :: k' != k ==> (k' in Offered(types, WithFlag(p, k)) <==> k' in Offered(types, p))
  {
  }

  /** The progress state: week number to day name to flags. */
  type Progress = map<int, map<string, DayProgress>>

  /** `getDayProgress`: the recorded flags, or all-false if there is no entry. */
  function GetDayProgress(progress: Progress, week: int, day: string): (p: DayProgress)
    ensures week !in progress || day !in progress[week] ==> p == NoProgress
    ensures week in progress && day in progress[week] ==> p == progress[week][day]
  {
    if week in progress && day in progress[week] then progress[week][day] else NoProgress
  }

  /** `markCompleted`: flag `t` of (week, day) becomes true, its other flags
      are kept, and every other day and week keeps its entry. */
  function Mark(progress: Progress, week: int, day: string, t: Category): (r: Progress)
    ensures GetDayProgress(r, week, day) == WithFlag(GetDayProgress(progress, week, day), t)
    ensures r.Keys == progress.Keys + {week}
    ensures forall w :: w in progress && w != week ==> r[w] == progress[w]
    ensures r[week].Keys == (if week in progress then progress[week].Keys else {}) + {day}
    ensures week in progress ==> forall d :: d in progress[week] && d != day ==> r[week][d] == progress[week][d]
  {
    var days := if week in progress then progress[week] else map[];
    progress[week := days[day := WithFlag(GetDayProgress(progress, week, day), t)]]
  }

  /** Seen through `getDayProgress`, marking changes only the one flag of the
      one day. */
  lemma MarkOnlyTouches(progress: Progress, week: int, day: string, t: Category, w: int, d: string)
    ensures GetDayProgress(Mark(progress, week, day, t), w, d) ==
      if w == week && d == day then WithFlag(GetDayProgress(progress, w, d), t)
      else GetDayProgress(progress, w, d)
  {
  }

  /** Marking the same flag twice has the effect of marking it once. */
  lemma MarkIdempotent(progress: Progress, week: int, day: string, t: Category)
    ensures Mark(Mark(progress, week, day, t), week, day, t) == Mark(progress, week, day, t)
  {
    var once := Mark(progress, week, day, t);
    var p := GetDayProgress(once, week, day);
    assert WithFlag(p, t) == p by {
      match t
      case Daily =>
      case Mag =>
      case Challenge =>
      case Rest =>
    }
    assert once[week][day := p] == once[week];
  }

  /** No flag is ever reset: whatever was done stays done after a mark. */
  lemma MarkNeverClears(progress: Progress, week: int, day: string, t: Category, w: int, d: string, c: Category)
    requires Flag(GetDayProgress(progress, w, d), c)
    ensures Flag(GetDayProgress(Mark(progress, week, day, t), w, d), c)
  {
  }

  /** Two marks give the same view of every day in either order. */
  lemma MarksCommute(progress: Progress, w1: int, d1: string, t1: Category,
                     w2: int, d2: string, t2: Category, w: int, d: string)
    ensures GetDayProgress(Mark(Mark(progress, w1, d1, t1), w2, d2, t2), w, d) ==
            GetDayProgress(Mark(Mark(progress, w2, d2, t2), w1, d1, t1), w, d)
  {
    var a := Mark(progress, w1, d1, t1);
    var b := Mark(progress, w2, d2, t2);
    MarkOnlyTouches(progress, w1, d1, t1, w, d);
    MarkOnlyTouches(progress, w2, d2, t2, w, d);
    MarkOnlyTouches(a, w2, d2, t2, w, d);
    MarkOnlyTouches(b, w1, d1, t1, w, d);
    var p := GetDayProgress(progress, w, d);
    assert WithFlag(WithFlag(p, t1), t2) == WithFlag(WithFlag(p, t2), t1) by {
      match t1
      case Daily =>
      case Mag =>
      case Challenge =>
      case Rest =>
    }
  }

  /** Whether a week is expanded; a week without an entry is closed. */
  predicate IsOpen(open: map<int, bool>, week: int)
  {
    week in open && open[week]
  }

  /** `toggleWeek`: the week's flag is flipped and every other entry is kept. */
  function Toggle(open: map<int, bool>, week: int): (r: map<int, bool>)
    ensures IsOpen(r, week) == !IsOpen(open, week)
    ensures r.Keys == open.Keys + {week}
    ensures forall w :: w in open && w != week ==> r[w] == open[w]
  {
    open[week := !IsOpen(open, week)]
  }

  /** Toggling a week twice restores whether every week is open. */
  lemma ToggleTwice(open: map<int, bool>, week: int, w: int)
    ensures IsOpen(Toggle(Toggle(open, week), week), w) == IsOpen(open, w)
  {
  }

  /** The restoration is only up to `IsOpen`: toggling a week with no entry
      twice leaves an explicit closed entry behind. */
  lemma ToggleTwiceAddsEntry()
    ensures Toggle(Toggle(map[], 3), 3) == map[3 := false] != map[]
  {
  }

  /** The weeks expanded when the page opens. */
  const InitialOpenWeeks: map<int, bool> := map[1 := true]

  /** Initially week 1 is the only open week. */
  lemma InitiallyOnlyWeekOne(w: int)
    ensures IsOpen(InitialOpenWeeks, w) <==> w == 1
  {
  }

  /** The session state of the tracker page. */
  class TrackerState {
    var weekProgress: Progress
    var openWeeks: map<int, bool>

    constructor ()
      ensures weekProgress == map[] && openWeeks == InitialOpenWeeks
    {
      weekProgress := map[];
      openWeeks := InitialOpenWeeks;
    }

    /** `markCompleted(week, day, type)`. */
    method MarkCompleted(week: int, day: string, t: Category)
      modifies this
      ensures weekProgress == Mark(old(weekProgress), week, day, t)
      ensures openWeeks == old(openWeeks)
    {
      var days := if week in weekProgress then weekProgress[week] else map[];
      var entry := GetDayProgress(weekProgress, week, day);
      weekProgress := weekProgress[week := days[day := WithFlag(entry, t)]];
    }

    /** `toggleWeek(week)`. */
    method ToggleWeek(week: int)
      modifies this
      ensures openWeeks == Toggle(old(openWeeks), week)
      ensures weekProgress == old(weekProgress)
    {
      openWeeks := openWeeks[week := !(week in openWeeks && openWeeks[week])];
    }

    /** What the page shows for one day of one week: its icon, and the
        completion buttons it offers. */
    method DayView(week: int, index: nat) returns (icon: string, buttons: seq<Kind>)
      requires index < |Days|
      ensures icon == IconText(WeekPlan[index], GetDayProgress(weekProgress, week, Days[index]))
      ensures buttons == Offered(WeekPlan[index], GetDayProgress(weekProgress, week, Days[index]))
      ensures index == 6 ==> icon == RestIcon && buttons == []
    {
      var structure := WeekStructure(week);
      assert Days[index] in Days;
      var dayTypes := structure[Days[index]];
      assert dayTypes == WeekPlan[index];
      var progress := GetDayProgress(weekProgress, week, Days[index]);
      icon := GetIcon(dayTypes, progress);
      buttons := CompletionButtons(dayTypes, progress);
      assert index == 6 ==> dayTypes == [Rest];
    }
  }
}
