/** The incremental flow sources of capture/flow_ingest.py: conntrack snapshots compared poll by poll
    (lines 130-216) and a firewall log read as it grows (lines 718-816). */
module FlowSources {
  import opened Basics

  /** A flow is its own 5-tuple key. */
  datatype Flow = Flow(srcIp: string, srcPort: nat, dstIp: string, dstPort: nat, protocol: string)

  // --------------------------------------------------------------------- conntrack

  datatype Tracker = Tracker(seen: set<Flow>, primed: bool, queued: multiset<Flow>, dropped: multiset<Flow>)

  const UNPRIMED := Tracker({}, false, multiset{}, multiset{})

  /** `poll_once`: `snapshot` is None when the table cannot be read, `refused` the flows a full
      queue turns away. */
  function Polled(t: Tracker, snapshot: Option<set<Flow>>, refused: set<Flow>): Tracker {
    if snapshot.None? then t
    else if !t.primed then t.(seen := snapshot.value, primed := true)
    else
      Tracker(snapshot.value, true, t.queued + Queued(snapshot.value, t.seen, refused),
              t.dropped + Dropped(snapshot.value, t.seen, refused))
  }

  datatype Poll = Poll(snapshot: Option<set<Flow>>, refused: set<Flow>)

  function RunPolls(polls: seq<Poll>): Tracker {
    if polls == [] then UNPRIMED
    else Polled(RunPolls(polls[..|polls| - 1]), polls[|polls| - 1].snapshot, polls[|polls| - 1].refused)
  }

  /** The snapshots of the polls that could read the table. */
  function Snapshots(polls: seq<Poll>): seq<set<Flow>> {
    if polls == [] then []
    else Snapshots(polls[..|polls| - 1]) + match polls[|polls| - 1].snapshot case None => [] case Some(s) => [s]
  }

  /** How often the flow turns from absent to present between consecutive snapshots. */
  function Appearances(snapshots: seq<set<Flow>>, f: Flow): nat {
    if |snapshots| < 2 then 0
    else Appearances(snapshots[..|snapshots| - 1], f)
         + if f in snapshots[|snapshots| - 1] && f !in snapshots[|snapshots| - 2] then 1 else 0
  }

  lemma AppearancesGrow(snapshots: seq<set<Flow>>, s: set<Flow>, f: Flow)
    ensures Appearances(snapshots + [s], f) == Appearances(snapshots, f)
            + if snapshots != [] && f in s && f !in snapshots[|snapshots| - 1] then 1 else 0
  {
    assert (snapshots + [s])[..|snapshots|] == snapshots;
  }

  /** Every appearance of a flow after the first snapshot is queued or counted as dropped, once, and
      nothing else is: whatever polls fail and whatever the queue refuses. */
  lemma {:induction false} EveryAppearanceCounts(polls: seq<Poll>, f: Flow)
    ensures RunPolls(polls).queued[f] + RunPolls(polls).dropped[f] == Appearances(Snapshots(polls), f)
    ensures RunPolls(polls).primed <==> Snapshots(polls) != []
    ensures Snapshots(polls) != [] ==> RunPolls(polls).seen == Snapshots(polls)[|Snapshots(polls)| - 1]
  {
    if polls != [] {
      var before, p := polls[..|polls| - 1], polls[|polls| - 1];
      EveryAppearanceCounts(before, f);
      if p.snapshot.Some? {
        AppearancesGrow(Snapshots(before), p.snapshot.value, f);
        PolledCounts(RunPolls(before), p.snapshot.value, p.refused, f);
      } else {
        assert Snapshots(polls) == Snapshots(before);
      }
    }
  }

  lemma PolledCounts(t: Tracker, s: set<Flow>, refused: set<Flow>, f: Flow)
    ensures var n := Polled(t, Some(s), refused);
            n.queued[f] + n.dropped[f] == t.queued[f] + t.dropped[f]
                + if t.primed && f in s && f !in t.seen then 1 else 0
  {
  }

  class ConntrackFlowSource {
    var seen: set<Flow>
    var primed: bool
    var emitted: nat
    var droppedCount: nat
    ghost var queued: multiset<Flow>
    ghost var dropped: multiset<Flow>
    ghost var history: seq<Poll>

    ghost predicate Valid()
      reads this
    {
      && Tracker(seen, primed, queued, dropped) == RunPolls(history)
      && Counted()
    }

    constructor ()
      ensures Valid() && history == []
    {
      seen, primed, emitted, droppedCount := {}, false, 0, 0;
      queued, dropped, history := multiset{}, multiset{}, [];
    }

    /** `lines` holds what parsing made of each line, None for one that is not a flow. */
    method PollOnce(lines: Option<seq<Option<Flow>>>, refused: set<Flow>) returns (count: nat)
      requires Valid()
      modifies this
      ensures Valid()
      ensures history == old(history) + [Poll(SnapshotOf(lines), refused)]
      ensures count == emitted - old(emitted)
    {
      ghost var p := Poll(SnapshotOf(lines), refused);
      assert (history + [p])[..|history|] == history;
      history := history + [p];
      if lines.None? {
        return 0;
      }
      var current := FlowsOf(lines.value);
      if !primed {
        seen, primed := current, true;
        return 0;
      }
      var before := emitted;
      EmitNew(current, refused);
      seen := current;
      CountsGrow(old(queued), Queued(current, old(seen), refused));
      count := emitted - before;
    }

    ghost predicate Counted()
      reads this`emitted, this`droppedCount, this`queued, this`dropped
    {
      emitted == |queued| && droppedCount == |dropped|
    }

    /** `_enqueue`, and the counter its answer moves. */
    method Offer(f: Flow, refused: set<Flow>) returns (accepted: bool)
      requires Counted()
      modifies this`emitted, this`droppedCount, this`queued, this`dropped
      ensures Counted() && accepted == (f !in refused)
      ensures queued == old(queued) + if accepted then multiset{f} else multiset{}
      ensures dropped == old(dropped) + if accepted then multiset{} else multiset{f}
      ensures emitted == old(emitted) + if accepted then 1 else 0
    {
      accepted := f !in refused;
      if accepted {
        queued, emitted := queued + multiset{f}, emitted + 1;
      } else {
        dropped, droppedCount := dropped + multiset{f}, droppedCount + 1;
      }
    }

    /** One turn of the loop over the current flows. */
    method EmitIfNew(f: Flow, refused: set<Flow>, ghost done: set<Flow>, ghost before: multiset<Flow>,
        ghost lost: multiset<Flow>)
      requires Counted() && f !in done
      requires queued == before + Queued(done, seen, refused) && dropped == lost + Dropped(done, seen, refused)
      modifies this`emitted, this`droppedCount, this`queued, this`dropped
      ensures Counted()
      ensures queued == before + Queued(done + {f}, seen, refused)
          && dropped == lost + Dropped(done + {f}, seen, refused)
    {
      OneMoreFlow(done, f, seen, refused);
      hide Queued, Dropped, Counted;
      if f !in seen {
        var _ := Offer(f, refused);
      }
    }

    /** The loop over the current flows. */
    method EmitNew(current: set<Flow>, refused: set<Flow>)
      requires Counted()
      modifies this`emitted, this`droppedCount, this`queued, this`dropped
      ensures Counted()
      ensures queued == old(queued) + Queued(current, seen, refused)
      ensures dropped == old(dropped) + Dropped(current, seen, refused)
    {
      var left := current;
      ghost var done: set<Flow> := {};
      NoFlows(seen, refused);
      hide Queued, Dropped, Counted;
      while left != {}
        invariant done !! left && done + left == current && Counted()
        invariant queued == old(queued) + Queued(done, seen, refused)
        invariant dropped == old(dropped) + Dropped(done, seen, refused)
        decreases |left|
      {
        var f :| f in left;
        EmitIfNew(f, refused, done, old(queued), old(dropped));
        done, left := done + {f}, left - {f};
      }
      assert done == current;
    }
  }

  /** What becomes of the flows that were not seen before. */
  function Queued(flows: set<Flow>, seen: set<Flow>, refused: set<Flow>): multiset<Flow> {
    multiset(flows - seen - refused)
  }
  function Dropped(flows: set<Flow>, seen: set<Flow>, refused: set<Flow>): multiset<Flow> {
    multiset((flows - seen) * refused)
  }

  lemma CountsGrow(a: multiset<Flow>, b: multiset<Flow>)
    ensures |a + b| >= |a|
  {
  }

  lemma NoFlows(seen: set<Flow>, refused: set<Flow>)
    ensures Queued({}, seen, refused) == Dropped({}, seen, refused) == multiset{}
  {
  }

  lemma OneMoreFlow(done: set<Flow>, f: Flow, seen: set<Flow>, refused: set<Flow>)
    requires f !in done
    ensures Queued(done + {f}, seen, refused) == Queued(done, seen, refused)
        + if f !in seen && f !in refused then multiset{f} else multiset{}
    ensures Dropped(done + {f}, seen, refused) == Dropped(done, seen, refused)
        + if f !in seen && f in refused then multiset{f} else multiset{}
  {
  }

  function SnapshotOf(lines: Option<seq<Option<Flow>>>): Option<set<Flow>> {
    match lines case None => None case Some(ls) => Some(set l | l in ls && l.Some? :: l.value)
  }

  /** The dictionary built line by line, keyed by the 5-tuple. */
  method FlowsOf(lines: seq<Option<Flow>>) returns (current: set<Flow>)
    ensures Some(current) == SnapshotOf(Some(lines))
  {
    current := {};
    for i := 0 to |lines|
      invariant current == set l | l in lines[..i] && l.Some? :: l.value
    {
      assert lines[..i + 1] == lines[..i] + [lines[i]];
      if lines[i].Some? {
        current := current + {lines[i].value};
      }
    }
    assert lines[..|lines|] == lines;
  }

  // ------------------------------------------------------------- conntrack, in its lines

  /** One poll: what parsing made of each line of the table, None if it could not be read. */
  datatype Reading = Reading(lines: Option<seq<Option<Flow>>>, refused: set<Flow>)

  function RunReadings(readings: seq<Reading>): Tracker {
    if readings == [] then UNPRIMED
    else
      var last := readings[|readings| - 1];
      Polled(RunReadings(readings[..|readings| - 1]), SnapshotOf(last.lines), last.refused)
  }

  /** The lines of the last poll that could read the table. */
  function LastLines(readings: seq<Reading>): Option<seq<Option<Flow>>> {
    if readings == [] then None
    else
      var last := readings[|readings| - 1];
      if last.lines.Some? then last.lines else LastLines(readings[..|readings| - 1])
  }

  /** How often the flow is on a line of a poll without being on one of the readable poll before it,
      counted where the queue refuses it or where it does not. */
  function Arrivals(readings: seq<Reading>, f: Flow, refused: bool): nat {
    if readings == [] then 0
    else
      var before, last := readings[..|readings| - 1], readings[|readings| - 1];
      var known := LastLines(before);
      Arrivals(before, f, refused)
      + if last.lines.Some? && Some(f) in last.lines.value && known.Some? && Some(f) !in known.value
           && (f in last.refused) == refused then 1 else 0
  }

  /** Every arrival of a flow on some line is queued, or counted as dropped when the queue is full, and
      nothing else is. */
  lemma {:induction false} ArrivalsCount(readings: seq<Reading>, f: Flow)
    ensures RunReadings(readings).queued[f] == Arrivals(readings, f, false)
    ensures RunReadings(readings).dropped[f] == Arrivals(readings, f, true)
    ensures RunReadings(readings).primed <==> LastLines(readings).Some?
    ensures LastLines(readings).Some? ==> RunReadings(readings).seen == SnapshotOf(LastLines(readings)).value
  {
    if readings != [] {
      var before, last := readings[..|readings| - 1], readings[|readings| - 1];
      ArrivalsCount(before, f);
      var t := RunReadings(before);
      if last.lines.Some? && t.primed {
        var s := SnapshotOf(last.lines).value;
        assert f in s <==> Some(f) in last.lines.value;
        assert f in t.seen <==> Some(f) in LastLines(before).value;
        assert Queued(s, t.seen, last.refused)[f] == if f in s && f !in t.seen && f !in last.refused then 1 else 0;
        assert Dropped(s, t.seen, last.refused)[f] == if f in s && f !in t.seen && f in last.refused then 1 else 0;
      }
    }
  }

  // ------------------------------------------------------------------------ filterlog

  /** `text.split("\n")`: always at least one piece, the last one the unfinished line. */
  function Split(text: string): (r: seq<string>)
    ensures |r| >= 1
  {
    if text == "" then [""]
    else if text[0] == '\n' then [""] + Split(text[1..])
    else var rest := Split(text[1..]); [[text[0]] + rest[0]] + rest[1..]
  }

  function Lines(text: string): seq<string> { Split(text)[..|Split(text)| - 1] }
  function Tail(text: string): string { Split(text)[|Split(text)| - 1] }

  /** Some complete lines, each ended by a newline, and an unfinished one. */
  function Joined(lines: seq<string>, tail: string): string {
    if lines == [] then tail else lines[0] + "\n" + Joined(lines[1..], tail)
  }

  /** The lines and the tail hold no newline, and joined by newlines they are the text. */
  lemma {:induction false} SplitUndoesJoin(text: string)
    ensures Joined(Lines(text), Tail(text)) == text
    ensures '\n' !in Tail(text) && forall line :: line in Lines(text) ==> '\n' !in line
  {
    if text != "" {
      var rest := text[1..];
      SplitUndoesJoin(rest);
      assert text == [text[0]] + rest;
      var parts := Split(rest);
      if text[0] == '\n' {
        assert Split(text) == [""] + parts;
        assert Lines(text) == [""] + Lines(rest) && Tail(text) == Tail(rest);
      } else if |parts| == 1 {
        assert Lines(text) == [] && Lines(rest) == [] && Tail(text) == [text[0]] + Tail(rest);
      } else {
        assert Lines(text) == [[text[0]] + parts[0]] + Lines(rest)[1..] && Tail(text) == Tail(rest);
        assert Lines(rest)[0] == parts[0] && Lines(rest)[0] in Lines(rest);
      }
    }
  }

  lemma LinesOfCons(text: string)
    requires text != ""
    ensures var rest := text[1..];
            && (text[0] == '\n' ==> Lines(text) == [""] + Lines(rest) && Tail(text) == Tail(rest))
            && (text[0] != '\n' && Lines(rest) == [] ==> Lines(text) == [] && Tail(text) == [text[0]] + Tail(rest))
            && (text[0] != '\n' && Lines(rest) != [] ==>
                  Lines(text) == [[text[0]] + Lines(rest)[0]] + Lines(rest)[1..] && Tail(text) == Tail(rest))
  {
  }

  lemma LinesOfNothing()
    ensures Lines("") == [] && Tail("") == ""
  {
  }

  /** Splitting can stop anywhere and go on from the unfinished line. */
  lemma {:induction false} LinesResume(a: string, b: string)
    ensures Lines(a + b) == Lines(a) + Lines(Tail(a) + b)
    ensures Tail(a + b) == Tail(Tail(a) + b)
  {
    hide Lines, Tail;
    LinesOfNothing();
    if a == "" {
      assert a + b == b && Tail(a) + b == b;
    } else {
      assert (a + b)[1..] == a[1..] + b;
      LinesResume(a[1..], b);
      LinesOfCons(a);
      LinesOfCons(a + b);
      if a[0] != '\n' && Lines(a[1..]) == [] {
        var text := Tail(a) + b;
        assert text[1..] == Tail(a[1..]) + b;
        LinesOfCons(text);
      }
    }
  }

  datatype Tailer = Tailer(offset: nat, inode: Option<nat>, buf: string)

  /** One look at the file: what `stat` says, and its contents when it is then read. */
  datatype Look = Look(inode: nat, size: nat, content: Option<string>)

  predicate Rotated(t: Tailer, l: Look) {
    (t.inode.Some? && l.inode != t.inode.value) || l.size < t.offset
  }

  /** `_read_new_lines`: the new state and the complete lines. */
  function ReadNew(t: Tailer, look: Option<Look>): (Tailer, seq<string>) {
    match look
    case None => (t, [])
    case Some(l) =>
      var t1 := (if Rotated(t, l) then Tailer(0, Some(l.inode), "") else t).(inode := Some(l.inode));
      if l.size == t1.offset || l.content.None? then (t1, [])
      else
        var data := if t1.offset <= |l.content.value| then l.content.value[t1.offset..] else "";
        var text := t1.buf + data;
        (Tailer(t1.offset + |data|, t1.inode, Tail(text)), Lines(text))
  }

  function RunTail(start: Tailer, looks: seq<Option<Look>>): (Tailer, seq<string>) {
    if looks == [] then (start, [])
    else
      var before := RunTail(start, looks[..|looks| - 1]);
      var last := ReadNew(before.0, looks[|looks| - 1]);
      (last.0, before.1 + last.1)
  }

  /** The longest contents read so far. */
  function Longest(start: nat, looks: seq<Option<Look>>): nat {
    if looks == [] then start
    else
      var before, last := Longest(start, looks[..|looks| - 1]), looks[|looks| - 1];
      if last.Some? && last.value.content.Some? && |last.value.content.value| > before then |last.value.content.value|
        else before
  }

  /** Looks at one file that only grows, into `final`: it is never shorter than it was when read, nor
      when read than when looked at just before. */
  ghost predicate AppendOnly(start: nat, inode: nat, looks: seq<Option<Look>>, final: string) {
    if looks == [] then start <= |final|
    else
      var before, last := looks[..|looks| - 1], looks[|looks| - 1];
      && AppendOnly(start, inode, before, final)
      && (last.Some? ==> last.value.inode == inode && Longest(start, before) <= last.value.size)
      && (last.Some? && last.value.content.Some? ==>
            last.value.content.value <= final && last.value.size <= |last.value.content.value|)
  }

  lemma ReadGrowing(t: Tailer, l: Look, start: nat, final: string)
    requires start <= t.offset <= l.size && t.inode == Some(l.inode) && t.offset <= |final|
    requires l.content.Some? ==> l.content.value <= final && l.size <= |l.content.value|
    requires t.buf == Tail(final[start..t.offset])
    ensures var n := ReadNew(t, Some(l));
            && t.offset <= n.0.offset <= |final| && n.0.inode == t.inode
            && (n.0.offset == t.offset || (l.content.Some? && n.0.offset == |l.content.value|))
            && n.0.buf == Tail(final[start..n.0.offset])
            && Lines(final[start..n.0.offset]) == Lines(final[start..t.offset]) + n.1
  {
    hide Lines, Tail;
    if l.size != t.offset && l.content.Some? {
      var end := |l.content.value|;
      var data := l.content.value[t.offset..];
      assert data == final[t.offset..end];
      assert final[start..end] == final[start..t.offset] + data;
      LinesResume(final[start..t.offset], data);
    }
  }

  /** However the growth of a log is cut into polls, and whichever of them fail, the lines given out
      are exactly the complete lines of what has been read since the start, and the buffer holds the
      unfinished one. */
  lemma {:induction false} TailIsScheduleFree(start: nat, inode: nat, looks: seq<Option<Look>>, final: string)
    requires AppendOnly(start, inode, looks, final)
    ensures var r := RunTail(Tailer(start, Some(inode), ""), looks);
            && start <= r.0.offset <= |final| && r.0.offset <= Longest(start, looks) && r.0.inode == Some(inode)
            && r.1 == Lines(final[start..r.0.offset]) && r.0.buf == Tail(final[start..r.0.offset])
  {
    hide Lines, Tail, ReadNew;
    if looks == [] {
      assert final[start..start] == "";
      LinesOfNothing();
    } else {
      var before, last := looks[..|looks| - 1], looks[|looks| - 1];
      TailIsScheduleFree(start, inode, before, final);
      var r := RunTail(Tailer(start, Some(inode), ""), before);
      if last.Some? {
        ReadGrowing(r.0, last.value, start, final);
      } else {
        NothingRead(r.0);
      }
    }
  }

  lemma NothingRead(t: Tailer)
    ensures ReadNew(t, None) == (t, [])
  {
  }

  /** A read that gets to the end has given out every complete line of the log since the start. */
  lemma LastReadIsComplete(start: nat, inode: nat, looks: seq<Option<Look>>, l: Look, final: string)
    requires start <= |final| && AppendOnly(start, inode, looks + [Some(l)], final) && l.content == Some(final)
        && l.size == |final|
    ensures var r := RunTail(Tailer(start, Some(inode), ""), looks + [Some(l)]);
            r.1 == Lines(final[start..]) && r.0.buf == Tail(final[start..]) && r.0.offset == |final|
  {
    hide Lines, Tail;
    var all := looks + [Some(l)];
    assert all[..|looks|] == looks;
    TailIsScheduleFree(start, inode, looks, final);
    TailIsScheduleFree(start, inode, all, final);
    assert final[start..|final|] == final[start..];
  }

  /** A rotation or a truncation that shows starts over: the new file is read from its top, and the
      unfinished line of the old one is given up. */
  lemma RotationStartsOver(t: Tailer, l: Look)
    requires Rotated(t, l) && l.content.Some? && l.size > 0
    ensures ReadNew(t, Some(l)) ==
            (Tailer(|l.content.value|, Some(l.inode), Tail(l.content.value)), Lines(l.content.value))
  {
    assert "" + l.content.value == l.content.value;
    assert l.content.value[0..] == l.content.value;
  }

  class FilterlogSource {
    var offset: nat
    var inode: Option<nat>
    var buf: string
    var emitted: nat
    var dropped: nat
    /** The flows accepted by the pipeline's queue, oldest first. */
    var queue: seq<Flow>
    ghost const first: Tailer
    ghost var looks: seq<Option<Look>>
    ghost var given: seq<string>

    ghost function View(): Tailer
      reads this
    {
      Tailer(offset, inode, buf)
    }

    ghost predicate Valid()
      reads this
    {
      (View(), given) == RunTail(first, looks)
    }

    /** `start`: seek to the end of the log. */
    constructor (size: nat, node: nat)
      ensures Valid() && looks == [] && given == [] && first == Tailer(size, Some(node), "")
      ensures emitted == dropped == 0 && queue == []
    {
      offset, inode, buf, emitted, dropped, queue := size, Some(node), "", 0, 0, [];
      first, looks, given := Tailer(size, Some(node), ""), [], [];
    }

    method ReadNewLines(look: Option<Look>) returns (complete: seq<string>)
      requires Valid()
      modifies this`offset, this`inode, this`buf, this`looks, this`given
      ensures Valid() && looks == old(looks) + [look] && given == old(given) + complete
      ensures (View(), complete) == ReadNew(old(View()), look)
    {
      hide Tail, Lines;
      assert (looks + [look])[..|looks|] == looks;
      looks := looks + [look];
      complete := [];
      if look.Some? {
        complete := Follow(look.value);
      }
      given := given + complete;
    }

    /** What follows a successful `stat`. */
    method Follow(l: Look) returns (complete: seq<string>)
      modifies this`offset, this`inode, this`buf
      ensures (View(), complete) == ReadNew(old(View()), Some(l))
    {
      if inode.Some? && l.inode != inode.value {
        offset, buf := 0, "";
      } else if l.size < offset {
        offset, buf := 0, "";
      }
      inode := Some(l.inode);
      if l.size == offset || l.content.None? {
        return [];
      }
      var data := if offset <= |l.content.value| then l.content.value[offset..] else "";
      offset := offset + |data|;
      buf := buf + data;
      if '\n' !in buf {
        NoNewline(buf);
        return [];
      }
      complete, buf := Lines(buf), Tail(buf);
    }

    /** `poll_once`: what parses is queued, in the order of the lines, or counted as dropped; `parse`
        and `accepts` stand for the line parser and the queue. */
    method PollOnce(look: Option<Look>, parse: string -> Option<Flow>, accepts: nat -> bool) returns (count: nat)
      requires Valid()
      modifies this
      ensures Valid() && looks == old(looks) + [look]
      ensures var lines := ReadNew(old(View()), look).1;
              && given == old(given) + lines
              && queue == old(queue) + Taken(lines, parse, accepts) && count == |Taken(lines, parse, accepts)|
              && emitted == old(emitted) + count && dropped + count == old(dropped) + |Parsed(lines, parse)|
    {
      var lines := ReadNewLines(look);
      count := 0;
      for i := 0 to |lines|
        invariant Valid() && looks == old(looks) + [look] && given == old(given) + lines
        invariant queue == old(queue) + Taken(lines[..i], parse, accepts)
            && count == |Taken(lines[..i], parse, accepts)|
        invariant emitted == old(emitted) + count && dropped + count == old(dropped) + |Parsed(lines[..i], parse)|
      {
        assert lines[..i + 1][..i] == lines[..i];
        var flow := parse(lines[i]);
        if flow.Some? {
          if accepts(i) {
            queue := queue + [flow.value];
            count, emitted := count + 1, emitted + 1;
          } else {
            dropped := dropped + 1;
          }
        }
      }
      assert lines[..|lines|] == lines;
    }
  }

  /** The flows among some lines that the queue takes. */
  function Taken(lines: seq<string>, parse: string -> Option<Flow>, accepts: nat -> bool): seq<Flow> {
    if lines == [] then []
    else
      var last := |lines| - 1;
      Taken(lines[..last], parse, accepts)
      + match parse(lines[last]) case None => [] case Some(f) => if accepts(last) then [f] else []
  }

  /** Each line that parses and is accepted is at its place: after those of the lines before it. */
  lemma {:induction false} TakenInOrder(lines: seq<string>, parse: string -> Option<Flow>, accepts: nat -> bool, i: nat)
    requires i < |lines|
    ensures var before, taken := Taken(lines[..i], parse, accepts), Taken(lines, parse, accepts);
            && before <= taken
            && (if parse(lines[i]).Some? && accepts(i)
                then before + [parse(lines[i]).value] <= taken
                  && Taken(lines[..i + 1], parse, accepts) == before + [parse(lines[i]).value]
                else Taken(lines[..i + 1], parse, accepts) == before)
  {
    assert lines[..i + 1][..i] == lines[..i];
    if i + 1 < |lines| {
      var front := lines[..|lines| - 1];
      assert front[..i] == lines[..i] && front[..i + 1] == lines[..i + 1] && front[i] == lines[i];
      TakenInOrder(front, parse, accepts, i);
    } else {
      assert lines[..i + 1] == lines;
    }
  }

  /** The flows among some lines. */
  function Parsed(lines: seq<string>, parse: string -> Option<Flow>): seq<Flow> {
    if lines == [] then []
    else Parsed(lines[..|lines| - 1], parse) + match parse(lines[|lines| - 1]) case None => [] case Some(f) => [f]
  }

  lemma {:induction false} NoNewline(text: string)
    requires '\n' !in text
    ensures Split(text) == [text]
  {
    if text != "" {
      NoNewline(text[1..]);
      assert text == [text[0]] + text[1..];
    }
  }
}
