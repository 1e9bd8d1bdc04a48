/** How long suppression lasts (alerts/manager.py:247-279): when the funnel suppresses an alert only
    because of an alert that stands within its own cooldown, and the three ways it does more. */
module AlertWindow {
  import opened AlertFunnel

  /** Some alert of the key stands within the alert's own cooldown. */
  ghost predicate Backed(s: State, a: Alert) {
    exists t :: t in s.Standing() && t.alert.key == a.key && t.At() >= a.timestamp - KindOf(a).Cooldown()
  }

  /** A repeat that only the database knows, and that is remembered as if it had fired. */
  predicate Refreshes(s: State, step: Step) {
    && step.Reserve? && step.alert.key != "" && !Hushed(step.alert, step.quiet)
    && !Remembered(s, step.alert) && step.answered && Stored(s, step.alert)
  }

  /** Such a repeat, more than one clock tick after every stored alert of its key. */
  predicate Stretches(s: State, step: Step) {
    && Refreshes(s, step)
    && forall t :: t in s.rows && t.alert.key == step.alert.key ==> t.At() < step.alert.timestamp - 1
  }

  // --------------------------------------------------- what a remembered time stands for

  /** The key's remembered time is that of a standing alert, or at most a tick after a stored one. */
  ghost predicate Anchored(s: State, key: string) {
    key in s.cache ==> Anchor(s, key, s.cache[key])
  }

  ghost predicate Anchor(s: State, key: string, at: int) {
    || (exists t :: t in s.Standing() && t.alert.key == key && t.At() == at)
    || (exists t :: t in s.rows && t.alert.key == key && at - 1 <= t.At())
  }

  lemma AnchorLasts(s: State, n: State, key: string, at: int)
    requires Anchor(s, key, at) && s.Standing() <= n.Standing() && s.rows <= n.rows
    ensures Anchor(n, key, at)
  {
  }

  lemma AnchoredReserve(s: State, step: Step, key: string)
    requires key != "" && Anchored(s, key) && step.Reserve? && !(step.alert.key == key && Stretches(s, step))
    ensures Anchored(Next(s, step), key)
  {
    hide CategoryCooldown, Kind.Cooldown, Anchor, Remembered, Hushed;
    var n, a := Next(s, step), step.alert;
    if key in n.cache {
      if key in s.cache && s.cache[key] == n.cache[key] {
        AnchorLasts(s, n, key, n.cache[key]);
      } else if n == Refreshed(s, a) && Refreshes(s, step) {
        RowAnchors(n, key, a.timestamp);
      } else {
        TicketAnchors(n, Ticket(a, s.life, step.answered));
      }
    }
  }

  lemma RowAnchors(s: State, key: string, at: int)
    requires exists t :: t in s.rows && t.alert.key == key && t.At() >= at - 1
    ensures Anchor(s, key, at)
  {
  }

  lemma TicketAnchors(s: State, t: Ticket)
    requires t in s.Standing()
    ensures Anchor(s, t.alert.key, t.At())
  {
  }

  lemma AnchoredFail(s: State, t: Ticket, key: string)
    requires Placed(s) && key != "" && Anchored(s, key) && t in s.inFlight
    ensures Anchored(Failed(s, t), key)
  {
  }

  lemma AnchoredStep(s: State, step: Step, key: string)
    requires Placed(s) && Enabled(s, step) && key != "" && Anchored(s, key)
    requires step.Reserve? && step.alert.key == key ==> !Stretches(s, step)
    ensures Anchored(Next(s, step), key)
  {
    hide CategoryCooldown, Kind.Cooldown, Anchor, Stretches, Reserved, Failed;
    match step
    case Reserve(_, _, _) => AnchoredReserve(s, step, key);
    case Commit(t) =>
      if key in s.cache {
        AnchorLasts(s, Committed(s, t), key, s.cache[key]);
      }
    case Count(t) =>
      if key in s.cache {
        AnchorLasts(s, Counted(s, t), key, s.cache[key]);
      }
    case Fail(t) => AnchoredFail(s, t, key);
    case Restart =>
  }

  /** Whether a repeat of the key stretches its window anywhere in a run. */
  ghost predicate NeverStretches(steps: seq<Step>, key: string) {
    forall i ::
      0 <= i < |steps| && steps[i].Reserve? && steps[i].alert.key == key
      ==> !Stretches(Run(steps[..i]), steps[i])
  }

  lemma NeverBefore(steps: seq<Step>, key: string, n: nat)
    requires n <= |steps| && NeverStretches(steps, key)
    ensures NeverStretches(steps[..n], key)
  {
    forall i | 0 <= i < n && steps[..n][i].Reserve? && steps[..n][i].alert.key == key
      ensures !Stretches(Run(steps[..n][..i]), steps[..n][i])
    {
      assert steps[..n][..i] == steps[..i];
    }
  }

  lemma {:induction false} RunAnchored(steps: seq<Step>, key: string)
    requires Legal(steps) && key != "" && NeverStretches(steps, key)
    ensures Anchored(Run(steps), key)
  {
    if steps != [] {
      var last := |steps| - 1;
      NeverBefore(steps, key, last);
      RunAnchored(steps[..last], key);
      RunKeeps(steps[..last]);
      hide Anchored, Stretches, Next, Books, Owned, Caused;
      BooksArePlaced(Run(steps[..last]));
      AnchoredStep(Run(steps[..last]), steps[last], key);
    }
  }

  lemma AnchoredIsBacked(s: State, a: Alert, answered: bool)
    requires Anchored(s, a.key) && Duplicate(s, a, answered)
    ensures Backed(s, a)
  {
    hide CategoryCooldown, Kind.Cooldown;
  }

  lemma {:induction false} LegalPrefix(steps: seq<Step>, n: nat)
    requires Legal(steps) && n <= |steps|
    ensures Legal(steps[..n])
  {
    if n == |steps| {
      assert steps[..n] == steps;
    } else {
      LegalPrefix(steps[..|steps| - 1], n);
      assert steps[..|steps| - 1][..n] == steps[..n];
    }
  }

  // -------------------------------------------------------- what a stretching repeat does

  lemma FreshId(tickets: set<Ticket>) returns (id: nat)
    ensures forall t :: t in tickets ==> t.alert.id < id
  {
    if tickets == {} {
      id := 0;
    } else {
      var t :| t in tickets;
      var rest := FreshId(tickets - {t});
      id := if t.alert.id < rest then rest else t.alert.id + 1;
    }
  }

  /** An alert of the key that may come next and is suppressed though nothing stands within its
      cooldown. */
  ghost predicate Overdone(s: State, a: Alert, answered: bool) {
    Enabled(s, Reserve(a, false, answered)) && Duplicate(s, a, answered) && !Backed(s, a)
  }

  /** Nothing of the key stands within a tick of a stretching repeat, written or not. */
  lemma StretchIsAlone(steps: seq<Step>, step: Step)
    requires Legal(steps) && Stretches(Run(steps), step) && Enabled(Run(steps), step)
    ensures forall t ::
              t in Run(steps).Standing() && t.alert.key == step.alert.key
              ==> t.At() < step.alert.timestamp - 1
  {
    var floor: Floor := key => MIN_COOLDOWN;
    forall i | 0 <= i < |steps| && steps[i].Reserve? ensures MIN_COOLDOWN <= KindOf(steps[i].alert).Cooldown() {
      CooldownBounds(KindOf(steps[i].alert));
    }
    CooldownBounds(KindOf(step.alert));
    RunSpaced(steps, floor);
    RunKeeps(steps);
    hide CategoryCooldown, Kind.Cooldown, Run, Legal;
    var s := Run(steps);
    BooksArePlaced(s);
    forall t | t in s.inFlight && t.alert.key == step.alert.key ensures t.At() < step.alert.timestamp - 1 {
      assert Covered(s, t, floor);
    }
  }

  lemma StretchOverdoes(steps: seq<Step>, step: Step) returns (a: Alert)
    requires Legal(steps) && Stretches(Run(steps), step) && Enabled(Run(steps), step)
    ensures a.key == step.alert.key && Overdone(Next(Run(steps), step), a, false)
  {
    StretchIsAlone(steps, step);
    var s, r := Run(steps), step.alert;
    var id := FreshId(s.Standing());
    CooldownBounds(KindOf(r));
    hide CategoryCooldown, Kind.Cooldown, Run, Legal;
    a := r.(id := id, timestamp := r.timestamp + KindOf(r).Cooldown() - 1);
    assert KindOf(a) == KindOf(r);
    assert Next(s, step) == Refreshed(s, r);
  }

  /** The exact condition for suppression within the cooldown, for every legal run and key: at no
      point is an alert of the key a duplicate without one standing within its own cooldown, if and
      only if no repeat that only the database knew was remembered more than a tick after everything
      stored of the key. */
  lemma WindowHoldsIff(steps: seq<Step>, key: string)
    requires Legal(steps) && key != ""
    ensures (forall i, a: Alert, answered ::
               0 <= i <= |steps| && a.key == key ==> !Overdone(Run(steps[..i]), a, answered))
            <==> NeverStretches(steps, key)
  {
    hide Overdone, Run, Legal, Stretches;
    if NeverStretches(steps, key) {
      forall i, a: Alert, answered | 0 <= i <= |steps| && a.key == key ensures !Overdone(Run(steps[..i]), a, answered) {
        NeverOverdone(steps, key, i, a, answered);
      }
    } else {
      var i :| 0 <= i < |steps| && steps[i].Reserve? && steps[i].alert.key == key
        && Stretches(Run(steps[..i]), steps[i]);
      var a := OverdoneAfter(steps, i);
    }
  }

  lemma NeverOverdone(steps: seq<Step>, key: string, i: nat, a: Alert, answered: bool)
    requires Legal(steps) && key != "" && NeverStretches(steps, key) && i <= |steps| && a.key == key
    ensures !Overdone(Run(steps[..i]), a, answered)
  {
    LegalPrefix(steps, i);
    NeverBefore(steps, key, i);
    RunAnchored(steps[..i], key);
    hide Run, Legal, Anchored, Backed, Duplicate, Enabled;
    if Duplicate(Run(steps[..i]), a, answered) {
      AnchoredIsBacked(Run(steps[..i]), a, answered);
    }
  }

  lemma OverdoneAfter(steps: seq<Step>, i: nat) returns (a: Alert)
    requires Legal(steps) && i < |steps| && Stretches(Run(steps[..i]), steps[i])
    ensures a.key == steps[i].alert.key && Overdone(Run(steps[..i + 1]), a, false)
  {
    LegalPrefix(steps, i);
    LegalPrefix(steps, i + 1);
    assert steps[..i + 1][..i] == steps[..i];
    assert Run(steps[..i + 1]) == Next(Run(steps[..i]), steps[i]);
    hide Overdone, Next, Stretches;
    a := StretchOverdoes(steps[..i], steps[i]);
  }

  // ----------------------------------------------------- what the alerts themselves show

  /** `b` comes exactly its cooldown after `a`, an alert of the same key. */
  predicate OnTheMark(a: Alert, b: Alert) {
    a.key == b.key && b.timestamp - a.timestamp == KindOf(b).Cooldown()
  }

  ghost predicate OffTheMark(steps: seq<Step>) {
    forall i, j :: 0 <= i < |steps| && 0 <= j < |steps| && steps[i].Reserve? && steps[j].Reserve? ==>
      !OnTheMark(steps[i].alert, steps[j].alert)
  }

  /** Within one process life and with one cooldown, the database knows more than memory only of an
      alert exactly on the mark. */
  lemma RefreshIsOnTheMark(steps: seq<Step>, step: Step, kinds: set<Kind>)
    requires Legal(steps) && Uninterrupted(steps) && Drawn(steps, kinds) && OneCooldown(kinds)
    requires Enabled(Run(steps), step) && Refreshes(Run(steps), step) && KindOf(step.alert) in kinds
    ensures exists i :: 0 <= i < |steps| && steps[i].Reserve? && OnTheMark(steps[i].alert, step.alert)
  {
    DrawnAreSpaced(steps, kinds);
    CommonIsFloor(kinds);
    OneLife(steps);
    RunKeeps(steps);
    hide CategoryCooldown, Kind.Cooldown, Run, Legal, Common, SpacedBy, Owned, Caused;
    var s, a := Run(steps), step.alert;
    BooksArePlaced(s);
    var t :| t in s.rows && t.alert.key == a.key && t.At() >= a.timestamp - KindOf(a).Cooldown();
    assert Covered(s, t, FloorOf(kinds));
    assert FloorOf(kinds)(t.alert.key) == KindOf(a).Cooldown();
    StandingWasReserved(steps, t);
    var i :| 0 <= i < |steps| && steps[i].Reserve? && steps[i].alert == t.alert;
    assert OnTheMark(steps[i].alert, a);
  }

  lemma OffTheMarkIsFresh(steps: seq<Step>, kinds: set<Kind>, i: nat)
    requires Legal(steps) && Uninterrupted(steps) && Drawn(steps, kinds) && OneCooldown(kinds) && OffTheMark(steps)
    requires i < |steps| && steps[i].Reserve?
    ensures !Stretches(Run(steps[..i]), steps[i])
  {
    LegalPrefix(steps, i);
    LegalPrefix(steps, i + 1);
    assert steps[..i + 1][..i] == steps[..i];
    hide Run, OneCooldown, Enabled, Duplicate, CategoryCooldown, Kind.Cooldown;
    if Refreshes(Run(steps[..i]), steps[i]) {
      RefreshIsOnTheMark(steps[..i], steps[i], kinds);
    }
  }

  /** In terms of the alerts alone: without a restart, with one cooldown per key and no alert exactly
      on the mark, every duplicate has an alert of its key within its own cooldown. */
  lemma WindowHoldsInOneLife(steps: seq<Step>, kinds: set<Kind>, a: Alert, answered: bool)
    requires Legal(steps) && Uninterrupted(steps) && Drawn(steps, kinds) && OneCooldown(kinds) && OffTheMark(steps)
    requires Duplicate(Run(steps), a, answered)
    ensures Backed(Run(steps), a)
  {
    forall i | 0 <= i < |steps| && steps[i].Reserve? && steps[i].alert.key == a.key
      ensures !Stretches(Run(steps[..i]), steps[i])
    {
      OffTheMarkIsFresh(steps, kinds, i);
    }
    hide Run, Legal, Uninterrupted, Drawn, OneCooldown, OffTheMark, Stretches, Backed, Duplicate, Anchored;
    RunAnchored(steps, a.key);
    AnchoredIsBacked(Run(steps), a, answered);
  }

  // ----------------------------------------- each of the three conditions left out in turn

  /** An alert that memory does not hold but the database does is suppressed and remembered. */
  lemma Repeats(s: State, a: Alert, t: Ticket)
    requires a.key != "" && a.timestamp >= s.now && s.Standing() == {t} && t.alert.id != a.id
    requires a.key in s.cache ==> s.cache[a.key] <= a.timestamp - KindOf(a).Cooldown()
    requires t in s.rows && t.alert.key == a.key && t.At() >= a.timestamp - KindOf(a).Cooldown()
    ensures Enabled(s, Reserve(a, false, true)) && Next(s, Reserve(a, false, true)) == Refreshed(s, a)
  {
    hide CategoryCooldown, Kind.Cooldown;
    assert Stored(s, a);
  }

  lemma OldRowBacksNothing(s: State, a: Alert, t: Ticket)
    requires s.Standing() == {t} && t.At() == 0 && a.timestamp > KindOf(a).Cooldown()
    ensures !Backed(s, a)
  {
    hide CategoryCooldown, Kind.Cooldown;
  }

  lemma Restarts(s: State)
    ensures Enabled(s, Restart) && Next(s, Restart) == Restarted(s)
  {
  }

  /** A restart: memory is empty, and a repeat within the cooldown is remembered in its place. */
  lemma RestartStretchesTheWindow(k: Kind, cause: Alert, repeated: Alert, last: Alert)
    requires k.key != "" && cause == AlertOf(k, 0, 0) && repeated == AlertOf(k, 1, k.Cooldown() - 1)
    requires last == AlertOf(k, 2, 2 * k.Cooldown() - 2)
    ensures var steps := [Reserve(cause, false, true), Commit(Ticket(cause, 0, true)), Restart,
        Reserve(repeated, false, true)];
            Legal(steps) && Duplicate(Run(steps), last, true) && !Backed(Run(steps), last)
  {
    hide CategoryCooldown, Kind.Cooldown, Next, Run, Legal, Enabled, Backed;
    CooldownBounds(k);
    var c, t := k.Cooldown(), Ticket(cause, 0, true);
    var steps := [Reserve(cause, false, true), Commit(t), Restart, Reserve(repeated, false, true)];
    var s1 := State(map[k.key := 0], {t}, {}, {}, 0, 0, 1, 0, 0, 0);
    var s2 := State(map[k.key := 0], {}, {t}, {t}, 0, 0, 1, 0, 0, 0);
    var s3 := State(map[], {}, {}, {t}, 1, 0, 0, 0, 0, 0);
    var s4 := State(map[k.key := c - 1], {}, {}, {t}, 1, c - 1, 1, 1, 0, 0);
    assert Legal(steps[..0]) && Run(steps[..0]) == START by { NoSteps(); }
    PassesUnwritten(START, cause);
    Extends(steps, 0, START, s1);
    Commits(s1, t, s2);
    Extends(steps, 1, s1, s2);
    assert Enabled(s2, Restart) && Next(s2, Restart) == s3 by { Restarts(s2); }
    Extends(steps, 2, s2, s3);
    assert Enabled(s3, Reserve(repeated, false, true)) && Next(s3, Reserve(repeated, false, true)) == s4 by {
      Repeats(s3, repeated, t);
    }
    Extends(steps, 3, s3, s4);
    assert steps[..4] == steps;
    OldRowBacksNothing(s4, last, t);
  }

  /** A repeat exactly on the mark: memory compares strictly, the database does not. */
  lemma RepeatOnTheMarkStretches(k: Kind, cause: Alert, repeated: Alert, last: Alert)
    requires k.key != "" && cause == AlertOf(k, 0, 0) && repeated == AlertOf(k, 1, k.Cooldown())
    requires last == AlertOf(k, 2, 2 * k.Cooldown() - 1)
    ensures var steps := [Reserve(cause, false, true), Commit(Ticket(cause, 0, true)), Reserve(repeated, false, true)];
            Legal(steps) && Duplicate(Run(steps), last, true) && !Backed(Run(steps), last)
  {
    hide CategoryCooldown, Kind.Cooldown, Next, Run, Legal, Enabled, Backed;
    CooldownBounds(k);
    var c, t := k.Cooldown(), Ticket(cause, 0, true);
    var steps := [Reserve(cause, false, true), Commit(t), Reserve(repeated, false, true)];
    var s1 := State(map[k.key := 0], {t}, {}, {}, 0, 0, 1, 0, 0, 0);
    var s2 := State(map[k.key := 0], {}, {t}, {t}, 0, 0, 1, 0, 0, 0);
    var s3 := State(map[k.key := c], {}, {t}, {t}, 0, c, 2, 1, 0, 0);
    assert Legal(steps[..0]) && Run(steps[..0]) == START by { NoSteps(); }
    PassesUnwritten(START, cause);
    Extends(steps, 0, START, s1);
    Commits(s1, t, s2);
    Extends(steps, 1, s1, s2);
    Repeats(s2, repeated, t);
    Extends(steps, 2, s2, s3);
    assert steps[..3] == steps;
    OldRowBacksNothing(s3, last, t);
  }

  /** Two cooldowns on one key: a failed write erases the memory of the key, and the longer cooldown
      finds the older row. */
  lemma FailedWriteStretches(short: Kind, long: Kind, cause: Alert, lost: Alert, repeated: Alert, last: Alert)
    requires short.key == long.key != "" && short.Cooldown() < long.Cooldown()
    requires cause == AlertOf(short, 0, 0) && lost == AlertOf(short, 1, short.Cooldown() + 1)
    requires repeated == AlertOf(long, 2, short.Cooldown() + 1)
    requires last == AlertOf(long, 3, short.Cooldown() + long.Cooldown())
    ensures var steps := [Reserve(cause, false, true), Commit(Ticket(cause, 0, true)), Reserve(lost, false, true),
                          Fail(Ticket(lost, 0, true)), Reserve(repeated, false, true)];
            Legal(steps) && Duplicate(Run(steps), last, true) && !Backed(Run(steps), last)
  {
    hide CategoryCooldown, Kind.Cooldown, Next, Run, Legal, Enabled, Backed;
    CooldownBounds(short);
    CooldownBounds(long);
    var at, k, t, u := short.Cooldown() + 1, short.key, Ticket(cause, 0, true), Ticket(lost, 0, true);
    var steps := [Reserve(cause, false, true), Commit(t), Reserve(lost, false, true), Fail(u),
      Reserve(repeated, false, true)];
    var s1 := State(map[k := 0], {t}, {}, {}, 0, 0, 1, 0, 0, 0);
    var s2 := State(map[k := 0], {}, {t}, {t}, 0, 0, 1, 0, 0, 0);
    var s3 := State(map[k := at], {u}, {t}, {t}, 0, at, 2, 0, 0, 0);
    var s4 := State(map[], {}, {t}, {t}, 0, at, 2, 0, 0, 1);
    var s5 := State(map[k := at], {}, {t}, {t}, 0, at, 3, 1, 0, 1);
    assert Legal(steps[..0]) && Run(steps[..0]) == START by { NoSteps(); }
    PassesUnwritten(START, cause);
    Extends(steps, 0, START, s1);
    Commits(s1, t, s2);
    Extends(steps, 1, s1, s2);
    PassesUnwritten(s2, lost);
    Extends(steps, 2, s2, s3);
    FailsLast(s3, u, s4);
    Extends(steps, 3, s3, s4);
    Repeats(s4, repeated, t);
    Extends(steps, 4, s4, s5);
    assert steps[..5] == steps;
    OldRowBacksNothing(s5, last, t);
  }
}
