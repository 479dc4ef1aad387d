/**
 * The retention policy of the src/pkg generation's BackupSession reconciler:
 * after a successful backup, the successful sessions are sorted newest first
 * and walked once; the sessions of the configuration that no keep rule (last,
 * daily, weekly, monthly, yearly) retains are deleted.  Each rule has a
 * counter, decremented while it is positive, and the date of the session it
 * last kept, which starts at Go's zero time.
 */
module Retention {
  import opened Formol

  /** A point in time with the calendar fields the rules read; weekday 0 is Sunday. */
  datatype Date = Date(unix: int, year: int, month: int, day: int, yearDay: int, weekday: int)

  /** time.Time{}: Monday 1 January of year 1, 00:00 UTC. */
  const ZeroTime := Date(-62135596800, 1, 1, 1, 1, 1)

  /** A successful BackupSession as listed: its name, the configuration it belongs to and its start time. */
  datatype ListedSession = ListedSession(name: string, refName: string, start: Date)

  /** A keep rule's state: how many more sessions it may keep, and the date of the last one it kept. */
  datatype KeepBackup = KeepBackup(counter: int, last: Date)

  datatype Counters = Counters(last: KeepBackup, daily: KeepBackup, weekly: KeepBackup, monthly: KeepBackup, yearly: KeepBackup)

  /** The rules before the first session: the configured counts, and the zero time as last kept date. */
  function Initial(keep: Keep): Counters {
    Counters(KeepBackup(keep.last, ZeroTime), KeepBackup(keep.daily, ZeroTime), KeepBackup(keep.weekly, ZeroTime),
             KeepBackup(keep.monthly, ZeroTime), KeepBackup(keep.yearly, ZeroTime))
  }

  /** The daily rule keeps a session of another day of the year than its last one. */
  predicate DailyKeeps(k: KeepBackup, d: Date) {
    k.counter > 0 && d.yearDay != k.last.yearDay
  }

  /** The weekly rule keeps a Sunday session of another day of the year than its last one. */
  predicate WeeklyKeeps(k: KeepBackup, d: Date) {
    k.counter > 0 && d.weekday == 0 && d.yearDay != k.last.yearDay
  }

  /** The monthly rule keeps a session of the first of a month other than its last one's. */
  predicate MonthlyKeeps(k: KeepBackup, d: Date) {
    k.counter > 0 && d.day == 1 && d.month != k.last.month
  }

  /** The yearly rule keeps a session of the first day of a year other than its last one's. */
  predicate YearlyKeeps(k: KeepBackup, d: Date) {
    k.counter > 0 && d.yearDay == 1 && d.year != k.last.year
  }

  /** A rule that keeps a session spends one of its count on it and remembers its date. */
  function Spend(k: KeepBackup, keeps: bool, d: Date): (r: KeepBackup)
    ensures keeps ==> r.counter == k.counter - 1 && r.last == d
    ensures !keeps ==> r == k
  {
    if keeps then KeepBackup(k.counter - 1, d) else k
  }

  /**
   * One session of the configuration, started at `d`: every rule that keeps
   * it spends one of its count; it is kept when at least one rule does.
   */
  function Decide(c: Counters, d: Date): (r: (Counters, bool))
    ensures r.1 <==> c.last.counter > 0 || DailyKeeps(c.daily, d) || WeeklyKeeps(c.weekly, d)
                     || MonthlyKeeps(c.monthly, d) || YearlyKeeps(c.yearly, d)
    ensures r.0.last.counter == (if c.last.counter > 0 then c.last.counter - 1 else c.last.counter)
    ensures r.0.daily == Spend(c.daily, DailyKeeps(c.daily, d), d)
    ensures r.0.weekly == Spend(c.weekly, WeeklyKeeps(c.weekly, d), d)
    ensures r.0.monthly == Spend(c.monthly, MonthlyKeeps(c.monthly, d), d)
    ensures r.0.yearly == Spend(c.yearly, YearlyKeeps(c.yearly, d), d)
  {
    var last := c.last.counter > 0;
    var daily := DailyKeeps(c.daily, d);
    var weekly := WeeklyKeeps(c.weekly, d);
    var monthly := MonthlyKeeps(c.monthly, d);
    var yearly := YearlyKeeps(c.yearly, d);
    (Counters(if last then c.last.(counter := c.last.counter - 1) else c.last,
              Spend(c.daily, daily, d), Spend(c.weekly, weekly, d), Spend(c.monthly, monthly, d), Spend(c.yearly, yearly, d)),
     last || daily || weekly || monthly || yearly)
  }

  /**
   * Walks the sessions in order: sessions of other configurations are
   * skipped; the indices of those no rule keeps are the ones deleted.
   */
  function Prune(sessions: seq<ListedSession>, refName: string, keep: Keep): (r: (Counters, seq<nat>))
    ensures forall x :: x in r.1 ==> x < |sessions| && sessions[x].refName == refName
    decreases |sessions|
  {
    if |sessions| == 0 then (Initial(keep), [])
    else
      var n := |sessions| - 1;
      var (c, deleted) := Prune(sessions[..n], refName, keep);
      if sessions[n].refName != refName then (c, deleted)
      else
        var (c', kept) := Decide(c, sessions[n].start);
        (c', if kept then deleted else deleted + [n])
  }

  /** The number of sessions of the configuration. */
  function Eligible(sessions: seq<ListedSession>, refName: string): nat
    decreases |sessions|
  {
    if |sessions| == 0 then 0
    else Eligible(sessions[..|sessions| - 1], refName) + (if sessions[|sessions| - 1].refName == refName then 1 else 0)
  }

  /** What is left of the "last" count after n sessions of the configuration. */
  function LastLeft(keepLast: int, n: nat): int {
    if keepLast <= 0 then keepLast else if keepLast > n then keepLast - n else 0
  }

  lemma {:induction false} LastCounter(sessions: seq<ListedSession>, refName: string, keep: Keep)
    ensures Prune(sessions, refName, keep).0.last.counter == LastLeft(keep.last, Eligible(sessions, refName))
    decreases |sessions|
  {
    if |sessions| > 0 {
      LastCounter(sessions[..|sessions| - 1], refName, keep);
    }
  }

  /** Whether session p is deleted is decided when the walk reaches it. */
  lemma {:induction false} DecidedAtOwnTurn(sessions: seq<ListedSession>, refName: string, keep: Keep, p: nat)
    requires p < |sessions|
    ensures p in Prune(sessions, refName, keep).1 <==> p in Prune(sessions[..p + 1], refName, keep).1
    decreases |sessions|
  {
    if p < |sessions| - 1 {
      var n := |sessions| - 1;
      assert sessions[..n][..p + 1] == sessions[..p + 1];
      DecidedAtOwnTurn(sessions[..n], refName, keep, p);
      assert p != n;
    } else {
      assert sessions[..p + 1] == sessions;
    }
  }

  /** The first Keep.Last sessions of the configuration, newest first, are never deleted. */
  lemma FirstLastKept(sessions: seq<ListedSession>, refName: string, keep: Keep, p: nat)
    requires p < |sessions| && Eligible(sessions[..p], refName) < keep.last
    ensures p !in Prune(sessions, refName, keep).1
  {
    DecidedAtOwnTurn(sessions, refName, keep, p);
    assert sessions[..p + 1][..p] == sessions[..p];
    LastCounter(sessions[..p], refName, keep);
    var (c, deleted) := Prune(sessions[..p], refName, keep);
    assert forall x :: x in deleted ==> x < p;
  }

  /**
   * A session of the configuration is deleted exactly when no rule keeps it,
   * given the rules' state after the sessions before it.
   */
  lemma DeletedIffNoRuleKeeps(sessions: seq<ListedSession>, refName: string, keep: Keep, p: nat)
    requires p < |sessions| && sessions[p].refName == refName
    ensures p in Prune(sessions, refName, keep).1 <==> !Decide(Prune(sessions[..p], refName, keep).0, sessions[p].start).1
  {
    DecidedAtOwnTurn(sessions, refName, keep, p);
    assert sessions[..p + 1][..p] == sessions[..p];
    var (c, deleted) := Prune(sessions[..p], refName, keep);
    assert p !in deleted;
  }

  /** No counter goes below zero when the configured counts are not negative, and no counter grows. */
  lemma {:induction false} CountersNeverNegative(sessions: seq<ListedSession>, refName: string, keep: Keep)
    requires keep.last >= 0 && keep.daily >= 0 && keep.weekly >= 0 && keep.monthly >= 0 && keep.yearly >= 0
    ensures var c := Prune(sessions, refName, keep).0;
            && 0 <= c.last.counter <= keep.last && 0 <= c.daily.counter <= keep.daily
            && 0 <= c.weekly.counter <= keep.weekly && 0 <= c.monthly.counter <= keep.monthly
            && 0 <= c.yearly.counter <= keep.yearly
    decreases |sessions|
  {
    if |sessions| > 0 {
      CountersNeverNegative(sessions[..|sessions| - 1], refName, keep);
    }
  }

  /**
   * Because the daily rule starts from the zero time, whose day of the year
   * is 1, a newest session started on the first of January is not kept as a
   * daily one.
   */
  lemma NewYearSessionNotDaily(keep: Keep, d: Date)
    requires d.yearDay == 1
    ensures !DailyKeeps(Initial(keep).daily, d)
  {
  }

  /** Sessions newest first by start time, in Unix seconds. */
  predicate NewestFirst(s: seq<ListedSession>) {
    forall k, l :: 0 <= k < l < |s| ==> s[k].start.unix >= s[l].start.unix
  }

  /** Sorts the listed sessions in place, newest first. */
  method SortNewestFirst(a: array<ListedSession>)
    modifies a
    ensures NewestFirst(a[..])
    ensures multiset(a[..]) == multiset(old(a[..]))
  {
    var i := 0;
    while i < a.Length
      invariant 0 <= i <= a.Length
      invariant NewestFirst(a[..i])
      invariant multiset(a[..]) == multiset(old(a[..]))
    {
      InsertNewest(a, i);
      i := i + 1;
    }
    assert a[..a.Length] == a[..];
  }

  /** s[..i+1] is newest first, leaving out position j. */
  predicate NewestFirstBut(s: seq<ListedSession>, j: int, i: int)
    requires 0 <= j <= i < |s|
  {
    forall k, l :: 0 <= k < l <= i && k != j && l != j ==> s[k].start.unix >= s[l].start.unix
  }

  /** s[j] is newer than every session after it up to i. */
  predicate NewerThanRest(s: seq<ListedSession>, j: int, i: int)
    requires 0 <= j <= i < |s|
  {
    forall l :: j < l <= i ==> s[j].start.unix > s[l].start.unix
  }

  /** Swapping the moving session with an older one before it keeps both facts, one position to the left. */
  lemma SwapStep(s: seq<ListedSession>, j: int, i: int)
    requires 0 < j <= i < |s| && NewestFirstBut(s, j, i) && NewerThanRest(s, j, i)
    requires s[j - 1].start.unix < s[j].start.unix
    ensures NewestFirstBut(s[j - 1 := s[j]][j := s[j - 1]], j - 1, i)
    ensures NewerThanRest(s[j - 1 := s[j]][j := s[j - 1]], j - 1, i)
  {
  }

  /** Once the moving session is not newer than the one before it, s[..i+1] is newest first. */
  lemma InsertDone(s: seq<ListedSession>, j: int, i: int)
    requires 0 <= j <= i < |s| && NewestFirstBut(s, j, i) && NewerThanRest(s, j, i)
    requires j == 0 || s[j - 1].start.unix >= s[j].start.unix
    ensures NewestFirst(s[..i + 1])
  {
  }

  /** Swaps a[j - 1] and a[j]. */
  method SwapAdjacent(a: array<ListedSession>, j: int)
    requires 0 < j < a.Length
    modifies a
    ensures a[..] == old(a[..])[j - 1 := old(a[j])][j := old(a[j - 1])]
    ensures multiset(a[..]) == multiset(old(a[..]))
  {
    ghost var before := a[..];
    a[j - 1], a[j] := a[j], a[j - 1];
    assert a[..] == before[j - 1 := before[j]][j := before[j - 1]];
  }

  /** Moves a[i] left past the older sessions before it, so that a[..i+1] is newest first. */
  method InsertNewest(a: array<ListedSession>, i: int)
    requires 0 <= i < a.Length && NewestFirst(a[..i])
    modifies a
    ensures NewestFirst(a[..i + 1])
    ensures multiset(a[..]) == multiset(old(a[..]))
  {
    var j := i;
    assert NewestFirstBut(a[..], j, i) by {
      assert forall k :: 0 <= k < i ==> a[..i][k] == a[k];
    }
    while j > 0 && a[j - 1].start.unix < a[j].start.unix
      invariant 0 <= j <= i
      invariant NewestFirstBut(a[..], j, i) && NewerThanRest(a[..], j, i)
      invariant multiset(a[..]) == multiset(old(a[..]))
    {
      SwapStep(a[..], j, i);
      SwapAdjacent(a, j);
      j := j - 1;
    }
    InsertDone(a[..], j, i);
  }

  /**
   * Walks the sessions newest first with the five rules' counters and last
   * dates; the indices of the sessions no rule keeps are returned, the
   * deletions themselves being left to the caller.
   */
  method PruneSessions(sessions: array<ListedSession>, refName: string, keep: Keep) returns (deleted: seq<nat>)
    ensures deleted == Prune(sessions[..], refName, keep).1
  {
    var lastBackups := KeepBackup(keep.last, ZeroTime);
    var dailyBackups := KeepBackup(keep.daily, ZeroTime);
    var weeklyBackups := KeepBackup(keep.weekly, ZeroTime);
    var monthlyBackups := KeepBackup(keep.monthly, ZeroTime);
    var yearlyBackups := KeepBackup(keep.yearly, ZeroTime);
    deleted := [];
    var i := 0;
    while i < sessions.Length
      invariant 0 <= i <= sessions.Length
      invariant (Counters(lastBackups, dailyBackups, weeklyBackups, monthlyBackups, yearlyBackups), deleted)
             == Prune(sessions[..i], refName, keep)
    {
      assert sessions[..i + 1][..i] == sessions[..i];
      var session := sessions[i];
      if session.refName == refName {
        var start := session.start;
        var deleteSession := true;
        if lastBackups.counter > 0 {
          lastBackups := lastBackups.(counter := lastBackups.counter - 1);
          deleteSession := false;
        }
        if dailyBackups.counter > 0 {
          if start.yearDay != dailyBackups.last.yearDay {
            dailyBackups := KeepBackup(dailyBackups.counter - 1, start);
            deleteSession := false;
          }
        }
        if weeklyBackups.counter > 0 {
          if start.weekday == 0 && start.yearDay != weeklyBackups.last.yearDay {
            weeklyBackups := KeepBackup(weeklyBackups.counter - 1, start);
            deleteSession := false;
          }
        }
        if monthlyBackups.counter > 0 {
          if start.day == 1 && start.month != monthlyBackups.last.month {
            monthlyBackups := KeepBackup(monthlyBackups.counter - 1, start);
            deleteSession := false;
          }
        }
        if yearlyBackups.counter > 0 {
          if start.yearDay == 1 && start.year != yearlyBackups.last.year {
            yearlyBackups := KeepBackup(yearlyBackups.counter - 1, start);
            deleteSession := false;
          }
        }
        if deleteSession {
          deleted := deleted + [i];
        }
      }
      i := i + 1;
    }
    assert sessions[..sessions.Length] == sessions[..];
  }
}
