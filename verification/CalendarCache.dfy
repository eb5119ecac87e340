/** The cache of the calendar tooltip, served while the shown period stays the same, and the actions that change the
    period.
 */
module CalendarCache {
  import opened Calendar
  import opened CalendarPage
  import opened Wrappers

  datatype Mode = Monthly | Yearly

  /** The cached texts with the periods they belong to; `baseDay` is 0 or a day that was last rendered for.
      `yearDrawn` and `monDrawn`, the days that the cached texts were rendered on, are history. */
  datatype State = State(mode: Mode, shift: int, yearShift: int, yearCached: Text, monShift: YearMonth, monCached: Text,
                         baseDay: int, yearDrawn: Option<Date>, monDrawn: Option<Date>)

  datatype Action = ModeSwitch | ShiftUp | ShiftDown | ShiftReset | Show(today: Date)

  function PlusMonths(ym: YearMonth, months: int): YearMonth {
    var at := 12 * ym.year + ym.month - 1 + months;
    YearMonth(at / 12, at % 12 + 1)
  }

  /** Shifts add up, over the ends of years, and a shift by one month leads to the next. */
  lemma MonthsAdd(ym: YearMonth, a: int, b: int)
    ensures PlusMonths(PlusMonths(ym, a), b) == PlusMonths(ym, a + b)
    ensures PlusMonths(ym, 1) == NextMonth(ym) && PlusMonths(ym, 12) == ym.(year := ym.year + 1)
  {
  }

  /** The period to be shown. */
  function Shown(s: State, today: Date): Period {
    var ym := PlusMonths(today.ym, s.shift);
    if s.mode == Yearly then YearOf(ym.year) else MonthOf(ym)
  }

  /** The periods the cache claims to hold before anything was rendered. */
  function Sentinel(mode: Mode): Period {
    if mode == Yearly then YearOf(1900) else MonthOf(YearMonth(1900, 1))
  }

  function Held(s: State, mode: Mode): Period {
    if mode == Yearly then YearOf(s.yearShift) else MonthOf(s.monShift)
  }

  function Cached(s: State, mode: Mode): Text {
    if mode == Yearly then s.yearCached else s.monCached
  }

  function Drawn(s: State, mode: Mode): Option<Date> {
    if mode == Yearly then s.yearDrawn else s.monDrawn
  }

  function Step(cfg: Config, s: State): int {
    (if s.mode == Yearly then 12 else 1) * cfg.factor
  }

  predicate Hit(s: State, today: Date) {
    Shown(s, today) == Held(s, s.mode) && (today.day == s.baseDay || s.baseDay == 0)
  }

  function Served(cfg: Config, s: State, today: Date): Text {
    if Hit(s, today) then Cached(s, s.mode) else Fresh(cfg, today, Shown(s, today))
  }

  function Next(cfg: Config, s: State, a: Action): State {
    match a
    case ModeSwitch => s.(mode := if s.mode == Yearly then Monthly else Yearly)
    case ShiftUp => s.(shift := s.shift + Step(cfg, s))
    case ShiftDown => s.(shift := s.shift - Step(cfg, s))
    case ShiftReset => s.(shift := 0)
    case Show(today) =>
      if Hit(s, today) then s
      else
        var ym := PlusMonths(today.ym, s.shift);
        var day := if Shown(s, today) == Held(s, s.mode) then today.day else s.baseDay;
        if s.mode == Yearly then
          s.(yearShift := ym.year, yearCached := Served(cfg, s, today), baseDay := day, yearDrawn := Some(today))
        else s.(monShift := ym, monCached := Served(cfg, s, today), baseDay := day, monDrawn := Some(today))
  }

  function Start(cfg: Config, mode: Mode, today: Date): State {
    State(mode, 0, 1900, [], YearMonth(1900, 1), [], if cfg.today.Some? then today.day else 0, None, None)
  }

  class Clock {
    const cfg: Config
    var mode: Mode
    var currShift: int
    var yearShift: int
    var yearCached: Text
    var monShift: YearMonth
    var monCached: Text
    var baseDay: int
    ghost var yearDrawn: Option<Date>
    ghost var monDrawn: Option<Date>

    ghost function View(): State
      reads this
    {
      State(mode, currShift, yearShift, yearCached, monShift, monCached, baseDay, yearDrawn, monDrawn)
    }

    constructor (cfg: Config, mode: Mode, today: Date)
      ensures this.cfg == cfg && View() == Start(cfg, mode, today)
    {
      this.cfg := cfg;
      this.mode := mode;
      currShift, yearShift, yearCached, monShift, monCached := 0, 1900, [], YearMonth(1900, 1), [];
      baseDay := 0;
      yearDrawn, monDrawn := None, None;
      new;
      if cfg.today.Some? {
        baseDay := today.day;
      }
    }

    method CldModeSwitch()
      modifies this
      ensures View() == Next(cfg, old(View()), ModeSwitch)
    {
      mode := if mode == Yearly then Monthly else Yearly;
    }

    method CldShiftUp()
      modifies this
      ensures View() == Next(cfg, old(View()), ShiftUp)
    {
      currShift := currShift + (if mode == Yearly then 12 else 1) * cfg.factor;
    }

    method CldShiftDown()
      modifies this
      ensures View() == Next(cfg, old(View()), ShiftDown)
    {
      currShift := currShift - (if mode == Yearly then 12 else 1) * cfg.factor;
    }

    method CldShiftReset()
      modifies this
      ensures View() == Next(cfg, old(View()), ShiftReset)
    {
      currShift := 0;
    }

    method GetCalendar(today: Date) returns (text: Text)
      modifies this
      ensures text == Served(cfg, old(View()), today)
      ensures View() == Next(cfg, old(View()), Show(today))
    {
      var ym := PlusMonths(today.ym, currShift);
      hide PlusMonths, Fresh;
      var d := today.day;
      if mode == Yearly {
        if ym.year == yearShift {
          if d == baseDay || baseDay == 0 {
            return yearCached;
          } else {
            baseDay := d;
          }
        } else {
          yearShift := ym.year;
        }
      }
      if mode == Monthly {
        if ym == monShift {
          if d == baseDay || baseDay == 0 {
            return monCached;
          } else {
            baseDay := d;
          }
        } else {
          monShift := ym;
        }
      }
      text := Render(cfg, today, if mode == Yearly then YearOf(ym.year) else MonthOf(ym));
      if mode == Yearly {
        yearCached := text;
        yearDrawn := Some(today);
      } else {
        monCached := text;
        monDrawn := Some(today);
      }
    }
  }

  // --- what the actions show --------------------------------------------------------------------------------

  /** The month that is shown, or whose year is. */
  function MonthShown(s: State, today: Date): YearMonth {
    PlusMonths(today.ym, s.shift)
  }

  /** A step up shows the period that comes `factor` months, or years, after the one shown, a step down the one before;
      a reset shows the present one, and a change of mode the year of the month or the month of the year. */
  lemma ActionsMoveThePeriod(cfg: Config, s: State, today: Date)
    ensures s.mode == Monthly ==>
      && Shown(Next(cfg, s, ShiftUp), today) == MonthOf(PlusMonths(MonthShown(s, today), cfg.factor))
      && Shown(Next(cfg, s, ShiftDown), today) == MonthOf(PlusMonths(MonthShown(s, today), -cfg.factor))
      && Shown(Next(cfg, s, ShiftReset), today) == MonthOf(today.ym)
      && Shown(s, today) == MonthOf(MonthShown(s, today))
      && Shown(Next(cfg, s, ModeSwitch), today) == YearOf(MonthShown(s, today).year)
    ensures s.mode == Yearly ==>
      && Shown(s, today) == YearOf(MonthShown(s, today).year)
      && Shown(Next(cfg, s, ShiftUp), today) == YearOf(MonthShown(s, today).year + cfg.factor)
      && Shown(Next(cfg, s, ShiftDown), today) == YearOf(MonthShown(s, today).year - cfg.factor)
      && Shown(Next(cfg, s, ShiftReset), today) == YearOf(today.ym.year)
      && Shown(Next(cfg, s, ModeSwitch), today) == MonthOf(MonthShown(s, today))
  {
    hide PlusMonths, Fresh, Served;
    ShiftBy(today.ym, s.shift, cfg.factor);
    ShiftBy(today.ym, s.shift, -cfg.factor);
    NoShift(today.ym);
  }

  lemma NoShift(ym: YearMonth)
    ensures PlusMonths(ym, 0) == ym
  {
  }

  lemma ShiftBy(ym: YearMonth, shift: int, amount: int)
    ensures PlusMonths(ym, shift + amount) == PlusMonths(PlusMonths(ym, shift), amount)
    ensures PlusMonths(ym, shift + 12 * amount) == PlusMonths(ym, shift).(year := PlusMonths(ym, shift).year + amount)
  {
    MonthsAdd(ym, shift, amount);
    MonthsAdd(ym, shift, 12 * amount);
  }

  // --- when the cache serves what would be rendered ------------------------------------------------------------

  /** What is cached is the text of the period held, rendered on the day noted; nothing, for the sentinel, before. */
  ghost predicate SoundFor(cfg: Config, s: State, mode: Mode) {
    match Drawn(s, mode)
    case None => Cached(s, mode) == [] && Held(s, mode) == Sentinel(mode)
    case Some(day) => Cached(s, mode) == Fresh(cfg, day, Held(s, mode))
  }

  ghost predicate Sound(cfg: Config, s: State) {
    (cfg.today.None? ==> s.baseDay == 0) && SoundFor(cfg, s, Monthly) && SoundFor(cfg, s, Yearly)
  }

  lemma StepKeepsSound(cfg: Config, s: State, a: Action)
    requires Sound(cfg, s)
    ensures Sound(cfg, Next(cfg, s, a))
  {
    hide Fresh, PlusMonths;
  }

  /** The text of a period is the same on the two days. */
  predicate SameOn(cfg: Config, s: Date, t: Date, period: Period) {
    s == t || (!Marks(cfg, s, period) && !Marks(cfg, t, period))
  }

  /** With a sound cache the served text is the fresh one exactly if it is rendered anew, or was rendered on a day on
      which it looked the same. */
  lemma SoundServesFresh(cfg: Config, s: State, today: Date)
    requires Sound(cfg, s)
    ensures Served(cfg, s, today) == Fresh(cfg, today, Shown(s, today)) <==>
            !Hit(s, today) || (Drawn(s, s.mode).Some? && SameOn(cfg, Drawn(s, s.mode).value, today, Shown(s, today)))
  {
    FreshIsNotEmpty(cfg, today, Shown(s, today));
    if Drawn(s, s.mode).Some? {
      SameTextIff(cfg, Drawn(s, s.mode).value, today, Shown(s, today));
    }
    hide Fresh, PlusMonths, Marks;
  }

  ghost predicate IsRun(cfg: Config, run: seq<State>, actions: seq<Action>) {
    && |run| == |actions| + 1
    && (exists mode, today :: run[0] == Start(cfg, mode, today))
    && forall i :: 0 <= i < |actions| ==> run[i + 1] == Next(cfg, run[i], actions[i])
  }

  lemma {:induction false} RunKeepsSound(cfg: Config, run: seq<State>, actions: seq<Action>, k: nat)
    requires IsRun(cfg, run, actions) && k <= |actions|
    ensures Sound(cfg, run[k])
  {
    if k == 0 {
      hide Fresh;
    } else {
      hide Next, Sound;
      RunKeepsSound(cfg, run, actions, k - 1);
      assert run[k - 1 + 1] == Next(cfg, run[k - 1], actions[k - 1]);
      StepKeepsSound(cfg, run[k - 1], actions[k - 1]);
    }
  }

  /** With or without a format for today, in every run of mode switches, shifts, resets and days: the text shown is
      the one that would be rendered exactly if it is rendered, or the cached one was rendered on the same day, or the
      period marks neither that day nor today, as it never does without a format. */
  lemma CacheIsFreshIff(cfg: Config, run: seq<State>, actions: seq<Action>, k: nat)
    requires IsRun(cfg, run, actions) && k < |actions| && actions[k].Show?
    ensures var s, today := run[k], actions[k].today;
      Served(cfg, s, today) == Fresh(cfg, today, Shown(s, today)) <==>
      !Hit(s, today) || (Drawn(s, s.mode).Some? && SameOn(cfg, Drawn(s, s.mode).value, today, Shown(s, today)))
  {
    RunKeepsSound(cfg, run, actions, k);
    SoundServesFresh(cfg, run[k], actions[k].today);
    hide *;
  }

  /** Action `j` rendered the text of a mode. */
  ghost predicate Draws(run: seq<State>, actions: seq<Action>, j: nat, mode: Mode)
    requires j < |actions| < |run|
  {
    actions[j].Show? && run[j].mode == mode && !Hit(run[j], actions[j].today)
  }

  lemma OnlyRenderingIsNoted(cfg: Config, s: State, a: Action, mode: Mode)
    ensures Drawn(Next(cfg, s, a), mode)
         == if a.Show? && s.mode == mode && !Hit(s, a.today) then Some(a.today) else Drawn(s, mode)
  {
    hide Fresh, Shown, PlusMonths, Hit, Served;
  }

  /** The day noted is that of the last rendering of the mode. */
  lemma {:induction false} DrawnIsLast(cfg: Config, run: seq<State>, actions: seq<Action>, k: nat, mode: Mode)
    returns (last: nat)
    requires IsRun(cfg, run, actions) && k <= |actions|
    ensures Drawn(run[k], mode).Some? ==>
      && last < k && Draws(run, actions, last, mode) && Drawn(run[k], mode) == Some(actions[last].today)
      && forall j :: last < j < k ==> !Draws(run, actions, j, mode)
    ensures Drawn(run[k], mode).None? ==> forall j :: 0 <= j < k ==> !Draws(run, actions, j, mode)
  {
    if k == 0 {
      last := 0;
    } else {
      last := DrawnIsLast(cfg, run, actions, k - 1, mode);
      assert run[k - 1 + 1] == Next(cfg, run[k - 1], actions[k - 1]);
      OnlyRenderingIsNoted(cfg, run[k - 1], actions[k - 1], mode);
      assert Draws(run, actions, k - 1, mode) <==>
        actions[k - 1].Show? && run[k - 1].mode == mode && !Hit(run[k - 1], actions[k - 1].today);
      hide *;
      if Draws(run, actions, k - 1, mode) {
        last := k - 1;
      }
    }
  }

  // --- without a format for today ---------------------------------------------------------------------------------

  /** Before action `k`, a period other than the sentinel was shown in this mode. */
  ghost predicate ShownBefore(run: seq<State>, actions: seq<Action>, k: nat, mode: Mode)
    requires k <= |actions| < |run|
  {
    exists j :: 0 <= j < k && actions[j].Show? && run[j].mode == mode
      && Shown(run[j], actions[j].today) != Sentinel(mode)
  }

  lemma StepDraws(cfg: Config, s: State, a: Action, mode: Mode)
    requires cfg.today.None? && Sound(cfg, s)
    ensures Drawn(Next(cfg, s, a), mode).None? <==>
            Drawn(s, mode).None? && !(a.Show? && s.mode == mode && Shown(s, a.today) != Sentinel(mode))
  {
    hide Fresh, PlusMonths;
  }

  lemma {:induction false} DrawnIffShown(cfg: Config, run: seq<State>, actions: seq<Action>, k: nat, mode: Mode)
    requires cfg.today.None? && IsRun(cfg, run, actions) && k <= |actions|
    ensures Drawn(run[k], mode).Some? <==> ShownBefore(run, actions, k, mode)
  {
    hide Next, Shown, Sentinel, Sound, ShownBefore;
    if k == 0 {
      NothingShownYet(run, actions, mode);
    } else {
      DrawnIffShown(cfg, run, actions, k - 1, mode);
      RunKeepsSound(cfg, run, actions, k - 1);
      assert run[k - 1 + 1] == Next(cfg, run[k - 1], actions[k - 1]);
      StepDraws(cfg, run[k - 1], actions[k - 1], mode);
      ShownBeforeNext(run, actions, k - 1, mode);
    }
  }

  lemma NothingShownYet(run: seq<State>, actions: seq<Action>, mode: Mode)
    requires |actions| < |run|
    ensures !ShownBefore(run, actions, 0, mode)
  {
  }

  lemma ShownBeforeNext(run: seq<State>, actions: seq<Action>, k: nat, mode: Mode)
    requires k < |actions| < |run|
    ensures ShownBefore(run, actions, k + 1, mode) <==>
            ShownBefore(run, actions, k, mode)
            || (actions[k].Show? && run[k].mode == mode && Shown(run[k], actions[k].today) != Sentinel(mode))
  {
    hide Shown, Sentinel;
  }

  /** Without a format for today, in every run of mode switches, shifts, resets and days, the text shown is the one
      that would be rendered: exactly but for January 1900, and the year 1900, before anything else of the mode
      was shown. */
  lemma CacheIsTransparent(cfg: Config, run: seq<State>, actions: seq<Action>, k: nat)
    requires cfg.today.None? && IsRun(cfg, run, actions) && k < |actions| && actions[k].Show?
    ensures var s, today := run[k], actions[k].today;
      Served(cfg, s, today) == Fresh(cfg, today, Shown(s, today)) <==>
      Shown(s, today) != Sentinel(s.mode) || ShownBefore(run, actions, k, s.mode)
  {
    hide Served, Fresh, Shown, Sentinel, ShownBefore;
    RunKeepsSound(cfg, run, actions, k);
    SoundServesFresh(cfg, run[k], actions[k].today);
    DrawnIffShown(cfg, run, actions, k, run[k].mode);
    if run[k].mode == Monthly {
      assert SoundFor(cfg, run[k], Monthly);
    } else {
      assert SoundFor(cfg, run[k], Yearly);
    }
  }

  // --- with a format for today ------------------------------------------------------------------------------------

  /** In every run with a format for today, which starts on a day of a month, the base day is one. */
  lemma {:induction false} BaseDayIsADay(
    cfg: Config, run: seq<State>, actions: seq<Action>, k: nat, mode: Mode, first: Date)
    requires IsRun(cfg, run, actions) && k <= |actions| && run[0] == Start(cfg, mode, first)
    requires cfg.today.Some? && first.day >= 1
    requires forall j :: 0 <= j < k && actions[j].Show? ==> actions[j].today.day >= 1
    ensures run[k].baseDay >= 1
  {
    if k == 0 {
    } else {
      BaseDayIsADay(cfg, run, actions, k - 1, mode, first);
      assert run[k - 1 + 1] == Next(cfg, run[k - 1], actions[k - 1]);
      hide Fresh, PlusMonths;
    }
  }

  /** In every run with a format for today: when a period is shown again in the same mode, and then once more right
      after on a day of another number, its text is rendered anew. */
  lemma DayChangeIsShown(cfg: Config, run: seq<State>, actions: seq<Action>, k: nat, mode: Mode, first: Date)
    requires IsRun(cfg, run, actions) && k + 1 < |actions| && run[0] == Start(cfg, mode, first)
    requires cfg.today.Some? && first.day >= 1
    requires forall j :: 0 <= j <= k && actions[j].Show? ==> actions[j].today.day >= 1
    requires actions[k].Show? && actions[k + 1].Show? && actions[k].today.day != actions[k + 1].today.day
    requires Shown(run[k], actions[k].today) == Held(run[k], run[k].mode)
    ensures var s, today := run[k + 1], actions[k + 1].today;
      Served(cfg, s, today) == Fresh(cfg, today, Shown(s, today))
  {
    hide Next, Fresh, Served, Shown, Held;
    BaseDayIsADay(cfg, run, actions, k, mode, first);
    assert run[k + 1] == Next(cfg, run[k], actions[k]);
    AnotherDayIsDrawn(cfg, run[k], actions[k].today, actions[k + 1].today);
  }

  lemma AnotherDayIsDrawn(cfg: Config, s: State, today: Date, tomorrow: Date)
    requires s.baseDay >= 1 && Shown(s, today) == Held(s, s.mode) && today.day != tomorrow.day && today.day >= 1
    ensures var t := Next(cfg, s, Show(today));
      Served(cfg, t, tomorrow) == Fresh(cfg, tomorrow, Shown(t, tomorrow))
  {
    hide Fresh, PlusMonths;
  }

  /** With a format for today the two modes share one base day: a month shown before midnight is served again
      unchanged when the year was shown after midnight meanwhile. That is wrong exactly if either day stands out. */
  lemma SharedBaseDayGoesStale(cfg: Config, ym: YearMonth, day: int)
    requires cfg.today.Some? && 1 <= day < Length(ym) && ym.year != 1900
    ensures var before, after := Date(ym, day), Date(ym, day + 1);
      var s1 := Next(cfg, Start(cfg, Monthly, before), Show(before));
      var s2 := Next(cfg, Next(cfg, Next(cfg, s1, ModeSwitch), Show(after)), Show(after));
      var s3 := Next(cfg, s2, ModeSwitch);
      && Shown(s3, after) == MonthOf(ym)
      && (Served(cfg, s3, after) != Fresh(cfg, after, MonthOf(ym)) <==> Visible(cfg, day) || Visible(cfg, day + 1))
  {
    SameTextIff(cfg, Date(ym, day), Date(ym, day + 1), MonthOf(ym));
    assert PlusMonths(ym, 0) == ym;
    hide PlusMonths, Fresh, Length, Visible;
  }
}
