/** The database-file change detector of the studio server (`db_watcher`):
    every tick it sleeps 0.1 s, stats the database file, and decides from
    the outcome and the snapshot it holds whether to notify the clients with
    "database_updated", what snapshot to hold next, and whether to back off
    for one more second.

    `os.stat` and the clock are inputs: a tick receives the outcome of its
    stat as a `Poll`. Sleeps and notifications are recorded as traces. */
module Watcher {
  import opened Wrappers

  /** The three fields of `os.stat_result` the watcher compares; `mtime` is
      in seconds and exact (Dafny reals), where the source has a float. */
  datatype Stat = Stat(mtime: real, size: nat, ino: nat)

  /** What one `os.stat(db_path)` does: return a result, raise
      `FileNotFoundError`, or raise any other exception. */
  datatype Poll = Found(stat: Stat) | NotFound | OtherError

  /** The tolerance on modification times, in seconds. */
  const TimeThreshold: real := 1.0
  /** The fixed sleep at the start of every tick, in milliseconds. */
  const PollSleepMs: nat := 100
  /** The extra sleep after either exception, in milliseconds. */
  const BackoffSleepMs: nat := 1000
  /** The one reason token the watcher ever passes to `notify_clients`. */
  const Reason: string := "database_updated"

  function Abs(x: real): real
  {
    if x < 0.0 then -x else x
  }

  /** Two snapshots differ when the mtimes are more than the threshold apart
      (strictly), or the size differs, or the inode differs. A snapshot never
      differs from itself. */
  predicate Changed(prev: Stat, cur: Stat): (r: bool)
    ensures r <==> (cur.mtime - prev.mtime > 1.0 || prev.mtime - cur.mtime > 1.0
                    || cur.size != prev.size || cur.ino != prev.ino)
    ensures prev == cur ==> !r
  {
    Abs(cur.mtime - prev.mtime) > TimeThreshold || cur.size != prev.size || cur.ino != prev.ino
  }

  /** What one tick decides: notify or not, the snapshot held afterwards,
      and whether it sleeps the extra back-off second. */
  datatype Decision = Decision(notify: bool, next: Option<Stat>, backoff: bool)

  /** The loop body's decision for the held snapshot `last` and this tick's poll. */
  function Decide(last: Option<Stat>, poll: Poll): (r: Decision)
    ensures r.backoff <==> !poll.Found?
    ensures r.notify ==> r.next != last
    ensures r.next.Some? <==> poll.Found? || (poll.OtherError? && last.Some?)
  {
    match poll
    case Found(cur) =>
      Decision(last.None? || Changed(last.value, cur), Some(cur), false)
    case NotFound =>
      Decision(last.Some?, None, true)
    case OtherError =>
      Decision(false, last, true)
  }

  /** The notifications one decision sends. */
  function TickNotices(d: Decision): seq<string>
  {
    if d.notify then [Reason] else []
  }

  /** The sleeps one tick makes, in order. */
  function TickSleeps(d: Decision): seq<nat>
  {
    [PollSleepMs] + (if d.backoff then [BackoffSleepMs] else [])
  }

  // ---------------------------------------------------------------------
  // One tick

  /** A successful stat with no snapshot held (first sighting, or the file
      came back after a deletion) notifies once and holds the new stat. */
  lemma FirstSightingNotifies(cur: Stat)
    ensures Decide(None, Found(cur)) == Decision(true, Some(cur), false)
  {
  }

  /** A successful stat that matches the held snapshot in size and inode and
      whose mtime is at most one second away is silent; a difference of
      exactly one second counts as unchanged. */
  lemma JitterIsSilent(prev: Stat, cur: Stat)
    requires cur.size == prev.size && cur.ino == prev.ino
    requires -1.0 <= cur.mtime - prev.mtime <= 1.0
    ensures Decide(Some(prev), Found(cur)) == Decision(false, Some(cur), false)
  {
  }

  /** With a snapshot held, a successful stat notifies exactly when the mtime
      moved by more than one second or the size or the inode differs; the new
      stat is held either way. */
  lemma ChangeNotifies(prev: Stat, cur: Stat)
    ensures Decide(Some(prev), Found(cur)).notify
            <==> (cur.mtime - prev.mtime > 1.0 || prev.mtime - cur.mtime > 1.0
                  || cur.size != prev.size || cur.ino != prev.ino)
    ensures Decide(Some(prev), Found(cur)).next == Some(cur)
  {
  }

  /** `FileNotFoundError` drops the snapshot, notifies only if one was held,
      and backs off. */
  lemma DeletionNotifiesOnce(last: Option<Stat>)
    ensures Decide(last, NotFound) == Decision(last.Some?, None, true)
  {
  }

  /** Any other exception keeps the snapshot, is silent, and backs off. */
  lemma OtherErrorIsInert(last: Option<Stat>)
    ensures Decide(last, OtherError) == Decision(false, last, true)
  {
  }

  /** Every tick sleeps 0.1 s first, and adds the one-second back-off exactly
      on the two exception branches; it sends at most one notification and
      only ever the reason "database_updated". */
  lemma TickShape(last: Option<Stat>, poll: Poll)
    ensures TickSleeps(Decide(last, poll))[0] == 100
    ensures TickSleeps(Decide(last, poll)) == if poll.Found? then [100] else [100, 1000]
    ensures |TickNotices(Decide(last, poll))| <= 1
    ensures forall k :: 0 <= k < |TickNotices(Decide(last, poll))| ==>
              TickNotices(Decide(last, poll))[k] == "database_updated"
  {
  }

  // ---------------------------------------------------------------------
  // The unknown / present / absent detector the watcher is meant to be

  /** The detector's phases: no snapshot taken yet, the file present with a
      snapshot held, or the file confirmed absent. */
  datatype Phase = Unknown | Present(snapshot: Stat) | Absent

  datatype Transition = Transition(next: Phase, emit: bool)

  /** The phase machine's transitions: appearing and reappearing emit, a
      present file emits when the change predicate holds, a disappearance
      from the present phase emits, and other read failures change nothing. */
  function PhaseStep(phase: Phase, poll: Poll): Transition
  {
    match poll
    case Found(cur) =>
      (match phase
       case Unknown => Transition(Present(cur), true)
       case Absent => Transition(Present(cur), true)
       case Present(held) => Transition(Present(cur), Changed(held, cur)))
    case NotFound => Transition(Absent, phase.Present?)
    case OtherError => Transition(phase, false)
  }

  /** The source's `last_stat` for a phase: it keeps a snapshot only while
      the file is present, so it does not tell "unknown" from "absent". */
  function Held(phase: Phase): Option<Stat>
  {
    if phase.Present? then Some(phase.snapshot) else None
  }

  /** The loop body implements the phase machine: from the snapshot of any
      phase it emits what the machine emits and holds the snapshot of the
      phase the machine moves to. */
  lemma DecideRefinesPhases(phase: Phase, poll: Poll)
    ensures Decide(Held(phase), poll).notify == PhaseStep(phase, poll).emit
    ensures Decide(Held(phase), poll).next == Held(PhaseStep(phase, poll).next)
  {
  }

  // ---------------------------------------------------------------------
  // Many ticks

  /** What the watcher has done after the given polls, starting from the
      held snapshot `start`: the snapshot it holds, the notifications it
      sent and the sleeps it made. */
  datatype Trace = Trace(last: Option<Stat>, notified: seq<string>, slept: seq<nat>)

  function Replay(start: Option<Stat>, polls: seq<Poll>): (t: Trace)
    ensures |t.notified| <= |polls| <= |t.slept|
    decreases |polls|
  {
    if polls == [] then Trace(start, [], [])
    else
      var t := Replay(start, polls[..|polls| - 1]);
      var d := Decide(t.last, polls[|polls| - 1]);
      Trace(d.next, t.notified + TickNotices(d), t.slept + TickSleeps(d))
  }

  /** The number of polls that raised an exception (either kind). */
  function ErrorCount(polls: seq<Poll>): nat
  {
    if polls == [] then 0
    else ErrorCount(polls[..|polls| - 1]) + (if polls[|polls| - 1].Found? then 0 else 1)
  }

  /** The snapshot described by the most recent poll that did not raise a
      generic exception: its stat, or nothing after `FileNotFoundError`;
      `start` when there was none. */
  function LastKnown(start: Option<Stat>, polls: seq<Poll>): Option<Stat>
  {
    if polls == [] then start
    else
      match polls[|polls| - 1]
      case Found(s) => Some(s)
      case NotFound => None
      case OtherError => LastKnown(start, polls[..|polls| - 1])
  }

  /** Over any run: at most one notification per tick, every one of them
      "database_updated", one sleep per tick plus one per exception. */
  lemma {:induction false} ReplayBounds(start: Option<Stat>, polls: seq<Poll>)
    ensures |Replay(start, polls).notified| <= |polls|
    ensures forall k :: 0 <= k < |Replay(start, polls).notified| ==>
              Replay(start, polls).notified[k] == Reason
    ensures |Replay(start, polls).slept| == |polls| + ErrorCount(polls)
  {
    if polls != [] {
      ReplayBounds(start, polls[..|polls| - 1]);
    }
  }

  /** After any run the held snapshot is wholly replaced by the latest stat
      (nothing after a deletion), whether or not that tick notified; only
      generic errors leave it as it was. */
  lemma {:induction false} ReplayHoldsLastKnown(start: Option<Stat>, polls: seq<Poll>)
    ensures Replay(start, polls).last == LastKnown(start, polls)
  {
    if polls != [] {
      ReplayHoldsLastKnown(start, polls[..|polls| - 1]);
    }
  }

  /** A trace extended by one more decision. */
  function Extend(t: Trace, d: Decision): Trace
  {
    Trace(d.next, t.notified + TickNotices(d), t.slept + TickSleeps(d))
  }

  /** Extending the second of two concatenated traces extends the whole. */
  lemma ExtendAfter(ta: Trace, tb: Trace, d: Decision)
    ensures Extend(Trace(tb.last, ta.notified + tb.notified, ta.slept + tb.slept), d)
            == Trace(Extend(tb, d).last, ta.notified + Extend(tb, d).notified, ta.slept + Extend(tb, d).slept)
  {
    assert ta.notified + tb.notified + TickNotices(d) == ta.notified + (tb.notified + TickNotices(d));
    assert ta.slept + tb.slept + TickSleeps(d) == ta.slept + (tb.slept + TickSleeps(d));
  }

  /** One more poll extends a replay by one decision. */
  lemma ReplaySnoc(start: Option<Stat>, polls: seq<Poll>, p: Poll)
    ensures Replay(start, polls + [p]) == Extend(Replay(start, polls), Decide(Replay(start, polls).last, p))
  {
    assert (polls + [p])[..|polls|] == polls;
  }

  /** Running `a` then `b` is running `b` from where `a` left the snapshot:
      the held snapshot is the watcher's whole state. */
  lemma {:induction false} ReplayAppend(start: Option<Stat>, a: seq<Poll>, b: seq<Poll>)
    ensures var ta := Replay(start, a);
            var tb := Replay(ta.last, b);
            Replay(start, a + b) == Trace(tb.last, ta.notified + tb.notified, ta.slept + tb.slept)
    decreases |b|
  {
    if b == [] {
      assert a + b == a;
    } else {
      var b', p := b[..|b| - 1], b[|b| - 1];
      var ta := Replay(start, a);
      var tb' := Replay(ta.last, b');
      var mid := Replay(start, a + b');
      var d := Decide(tb'.last, p);
      assert mid == Trace(tb'.last, ta.notified + tb'.notified, ta.slept + tb'.slept) by {
        ReplayAppend(start, a, b');
      }
      assert Replay(start, a + b) == Extend(mid, d) by {
        assert a + b == (a + b') + [p];
        ReplaySnoc(start, a + b', p);
      }
      assert Replay(ta.last, b) == Extend(tb', d) by {
        assert b == b' + [p];
        ReplaySnoc(ta.last, b', p);
      }
      ExtendAfter(ta, tb', d);
    }
  }

  /** Successive stats of one file whose size and inode stay the same and
      whose mtime moves by at most one second per tick never notify, however
      far the mtime drifts in total, and the latest stat is held. */
  lemma {:induction false} DriftNeverNotifies(first: Stat, polls: seq<Poll>)
    requires forall k :: 0 <= k < |polls| ==>
               polls[k].Found? && polls[k].stat.size == first.size && polls[k].stat.ino == first.ino
    requires |polls| > 0 ==> Abs(polls[0].stat.mtime - first.mtime) <= TimeThreshold
    requires forall k :: 0 < k < |polls| ==>
               Abs(polls[k].stat.mtime - polls[k - 1].stat.mtime) <= TimeThreshold
    ensures Replay(Some(first), polls).notified == []
    ensures Replay(Some(first), polls).last == if polls == [] then Some(first) else Some(polls[|polls| - 1].stat)
  {
    if polls != [] {
      var init := polls[..|polls| - 1];
      DriftNeverNotifies(first, init);
    }
  }

  /** The drift of the previous lemma made concrete: ten one-second steps
      move the mtime by ten seconds without a single notification. */
  lemma TenSecondDriftIsSilent()
    ensures Replay(Some(Stat(0.0, 4096, 7)),
                   seq(10, k requires 0 <= k < 10 => Found(Stat((k + 1) as real, 4096, 7)))).notified == []
  {
    var polls := seq(10, k requires 0 <= k < 10 => Found(Stat((k + 1) as real, 4096, 7)));
    DriftNeverNotifies(Stat(0.0, 4096, 7), polls);
  }

  /** While the file stays absent nothing is sent after the first absent
      tick: from no snapshot nothing at all, from a held snapshot exactly one
      notification; nothing is held afterwards. */
  lemma {:induction false} AbsenceIsSilent(start: Option<Stat>, polls: seq<Poll>)
    requires forall k :: 0 <= k < |polls| ==> polls[k] == NotFound
    ensures Replay(start, polls).notified == if start.Some? && polls != [] then [Reason] else []
    ensures polls != [] ==> Replay(start, polls).last == None
  {
    if polls != [] {
      AbsenceIsSilent(start, polls[..|polls| - 1]);
    }
  }

  /** Generic errors in a row change nothing but the sleeps. */
  lemma {:induction false} ErrorsAreInert(start: Option<Stat>, polls: seq<Poll>)
    requires forall k :: 0 <= k < |polls| ==> polls[k] == OtherError
    ensures Replay(start, polls).last == start
    ensures Replay(start, polls).notified == []
  {
    if polls != [] {
      ErrorsAreInert(start, polls[..|polls| - 1]);
    }
  }

  /** A first sighting notifies once, an identical stat is silent, and a
      two-byte growth notifies once more. */
  lemma AppearUnchangedGrow(s: Stat)
    ensures Replay(None, [Found(s)]).notified == [Reason]
    ensures Replay(None, [Found(s), Found(s)]).notified == [Reason]
    ensures Replay(None, [Found(s), Found(s), Found(Stat(s.mtime, s.size + 2, s.ino))]).notified
            == [Reason, Reason]
  {
    assert [Found(s), Found(s)][..1] == [Found(s)];
    assert [Found(s), Found(s), Found(Stat(s.mtime, s.size + 2, s.ino))][..2] == [Found(s), Found(s)];
  }

  /** A deletion after the file was seen notifies once, absent ticks stay
      silent, and the reappearance notifies once. */
  lemma DisappearAndReappear(s: Stat, absentTicks: seq<Poll>)
    requires |absentTicks| > 0 && forall k :: 0 <= k < |absentTicks| ==> absentTicks[k] == NotFound
    ensures Replay(Some(s), absentTicks + [Found(s)]).notified == [Reason, Reason]
    ensures Replay(Some(s), absentTicks + [Found(s)]).last == Some(s)
  {
    var t := Replay(Some(s), absentTicks);
    assert t.notified == [Reason] && t.last == None by {
      AbsenceIsSilent(Some(s), absentTicks);
    }
    ReplaySnoc(Some(s), absentTicks, Found(s));
  }

  // ---------------------------------------------------------------------
  // The loop itself

  /** The watcher task: the snapshot it holds and what it has done so far. */
  class DbWatcher {
    /** `last_stat`. */
    var lastStat: Option<Stat>
    /** The `notify_clients` calls made, in order. */
    var notified: seq<string>
    /** The `asyncio.sleep` calls made, in milliseconds, in order. */
    var slept: seq<nat>

    constructor ()
      ensures lastStat == None && notified == [] && slept == []
    {
      lastStat := None;
      notified := [];
      slept := [];
    }

    /** One iteration of the `while True` loop, given what `os.stat` did. */
    method Tick(poll: Poll)
      modifies this
      ensures lastStat == Decide(old(lastStat), poll).next
      ensures notified == old(notified) + TickNotices(Decide(old(lastStat), poll))
      ensures slept == old(slept) + TickSleeps(Decide(old(lastStat), poll))
    {
      slept := slept + [PollSleepMs];
      match poll {
        case Found(cur) =>
          if lastStat.None? {
            notified := notified + [Reason];
          } else {
            var timeChanged := Abs(cur.mtime - lastStat.value.mtime) > TimeThreshold;
            var sizeChanged := cur.size != lastStat.value.size;
            var inodeChanged := cur.ino != lastStat.value.ino;
            if timeChanged || sizeChanged || inodeChanged {
              notified := notified + [Reason];
            }
          }
          lastStat := Some(cur);
        case NotFound =>
          if lastStat.Some? {
            notified := notified + [Reason];
          }
          lastStat := None;
          slept := slept + [BackoffSleepMs];
        case OtherError =>
          slept := slept + [BackoffSleepMs];
      }
    }

    /** The first `|polls|` iterations of the loop. */
    method Run(polls: seq<Poll>)
      modifies this
      ensures lastStat == Replay(old(lastStat), polls).last
      ensures notified == old(notified) + Replay(old(lastStat), polls).notified
      ensures slept == old(slept) + Replay(old(lastStat), polls).slept
    {
      ghost var start, notified0, slept0 := lastStat, notified, slept;
      var i := 0;
      while i < |polls|
        invariant 0 <= i <= |polls|
        invariant lastStat == Replay(start, polls[..i]).last
        invariant notified == notified0 + Replay(start, polls[..i]).notified
        invariant slept == slept0 + Replay(start, polls[..i]).slept
      {
        assert polls[..i + 1][..i] == polls[..i];
        Tick(polls[i]);
        i := i + 1;
      }
      assert polls[..|polls|] == polls;
    }
  }
}
