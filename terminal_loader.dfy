/**
 * The `TerminalLoader` component (src/App.jsx). On mount its effect
 * schedules one timeout per script line, line `idx` after `800 * idx` ms;
 * the callback for the last line schedules one more timeout, 1000 ms later,
 * that calls `onComplete`. Every handle is recorded, and the effect's
 * cleanup clears the `mounted` flag and clears every recorded handle.
 *
 * The browser's timer queue is modelled explicitly: `pending` holds the
 * timeouts not yet fired or cleared, in the order they fire, and `now` is a
 * simulated clock in milliseconds since mount that only moves when a timeout
 * fires. The transitions are the functions `Mount`, `Fire` and `Cleanup`;
 * the class `Loader` performs them in place, statement by statement.
 */
module TerminalLoader {
  import opened Wrappers

  /** The script, one entry per line. */
  const FullText: seq<string> := [
    "> initializing_core_systems...",
    "> establishing_secure_connection...",
    "> loading_modules [React, Framer_Motion, Tailwind]...",
    "> access_granted. welcome_user."
  ]

  /** Milliseconds between lines. */
  const TypingSpeed: int := 800

  /** Milliseconds from the last line to the completion callback. */
  const FinalPause: int := 1000

  /** When line `idx` is scheduled to appear. */
  function LineTime(idx: nat): int {
    TypingSpeed * idx
  }

  /** When `onComplete` is scheduled to run: the last line's time plus the pause. */
  const CompletionTime: int := LineTime(|FullText| - 1) + FinalPause

  /** What a timeout runs when it fires: the closure for one line, or the one calling `onComplete`. */
  datatype Callback = AppendLine(idx: nat, line: string) | Finish

  /** A scheduled timeout: its handle, when it fires, and what it runs. */
  datatype Timeout = Timeout(handle: nat, due: int, callback: Callback)

  /** Everything the loader's timers can read or change. */
  datatype LoaderState = LoaderState(
    now: int,                 // simulated time, ms since mount
    lines: seq<string>,       // the `lines` state: what the terminal shows
    mounted: bool,            // the effect's `mounted` flag
    pending: seq<Timeout>,    // timeouts neither fired nor cleared, in firing order
    timeouts: seq<nat>,       // the effect's array of recorded handles
    nextHandle: nat,          // the handle the next `setTimeout` returns
    completions: nat          // how many times `onComplete` has run
  )

  /** Timeouts fire in this order: earlier due times first. */
  predicate Sorted(pending: seq<Timeout>) {
    forall i, j :: 0 <= i < j < |pending| ==> pending[i].due <= pending[j].due
  }

  /** Due times and callbacks of a list of timeouts, without their handles. */
  function Agenda(pending: seq<Timeout>): seq<(int, Callback)> {
    seq(|pending|, i requires 0 <= i < |pending| => (pending[i].due, pending[i].callback))
  }

  /** The timeout the effect schedules for line `k`. */
  function LineTimeout(k: nat): (int, Callback)
    requires k < |FullText|
  {
    (LineTime(k), AppendLine(k, FullText[k]))
  }

  /**
   * The timeouts a mounted loader still has outstanding once `shown` lines
   * are on screen and `onComplete` has run `calls` times: the remaining lines
   * at their scheduled times, then, once every line is shown and until it
   * has run, the completion timeout.
   */
  function Outstanding(shown: nat, calls: nat): seq<(int, Callback)>
    requires shown <= |FullText|
  {
    seq(|FullText| - shown, k requires 0 <= k < |FullText| - shown => LineTimeout(shown + k))
    + (if shown == |FullText| && calls == 0 then [(CompletionTime, Finish)] else [])
  }

  /** The effect's `forEach` over the script: line `k` gets the `k+1`-th handle. */
  function Scheduled(): seq<Timeout> {
    seq(|FullText|, k requires 0 <= k < |FullText| =>
          Timeout(k + 1, LineTimeout(k).0, LineTimeout(k).1))
  }

  /** The state right after the first render and the effect: nothing shown, every line scheduled. */
  function Mount(): LoaderState {
    LoaderState(0, [], true, Scheduled(), seq(|FullText|, k => k + 1), |FullText| + 1, 0)
  }

  /** The callback that runs next, if any timeout is pending. */
  function Next(s: LoaderState): Option<Callback> {
    if s.pending == [] then None else Some(s.pending[0].callback)
  }

  /**
   * The earliest pending timeout fires: the clock moves to its due time and
   * its callback runs. A line callback returns at once when unmounted;
   * otherwise it appends its line and, for the last line, schedules the
   * completion timeout and records its handle. The completion callback calls
   * `onComplete` only when still mounted.
   */
  function Fire(s: LoaderState): (r: LoaderState)
    ensures r.mounted == s.mounted && s.timeouts <= r.timeouts
    ensures s.lines <= r.lines && |r.lines| <= |s.lines| + 1
    ensures s.completions <= r.completions <= s.completions + 1
    ensures !s.mounted ==> r.lines == s.lines && r.completions == s.completions
  {
    if s.pending == [] then s
    else
      var t := s.pending[0];
      var s1 := s.(now := t.due, pending := s.pending[1..]);
      match t.callback
      case AppendLine(idx, line) =>
        if !s.mounted then s1
        else if idx == |FullText| - 1 then
          s1.(lines := s.lines + [line],
              pending := s1.pending + [Timeout(s.nextHandle, t.due + FinalPause, Finish)],
              timeouts := s.timeouts + [s.nextHandle],
              nextHandle := s.nextHandle + 1)
        else s1.(lines := s.lines + [line])
      case Finish =>
        if s.mounted then s1.(completions := s.completions + 1) else s1
  }

  /** `clearTimeout(handle)`: the timeout with that handle no longer fires. */
  function ClearTimeout(pending: seq<Timeout>, handle: nat): (r: seq<Timeout>)
    ensures forall t :: t in r <==> t in pending && t.handle != handle
    ensures Sorted(pending) ==> Sorted(r)
    ensures |r| <= |pending|
    ensures (forall k :: 0 <= k < |pending| ==> pending[k].handle != handle) ==> r == pending
  {
    if pending == [] then []
    else
      var rest := ClearTimeout(pending[1..], handle);
      assert forall t :: t in rest ==> t in pending[1..];
      assert pending == [pending[0]] + pending[1..];
      if pending[0].handle == handle then rest else [pending[0]] + rest
  }

  /** `handles.forEach(clearTimeout)`, in order. */
  function ClearAll(pending: seq<Timeout>, handles: seq<nat>): (r: seq<Timeout>)
    ensures forall t :: t in r <==> t in pending && t.handle !in handles
    ensures Sorted(pending) ==> Sorted(r)
    ensures |r| <= |pending|
    ensures (forall k :: 0 <= k < |pending| ==> pending[k].handle !in handles) ==> r == pending
  {
    if handles == [] then pending
    else ClearTimeout(ClearAll(pending, handles[..|handles| - 1]), handles[|handles| - 1])
  }

  /** The effect's cleanup: clear the flag, then clear every recorded handle. */
  function Cleanup(s: LoaderState): (r: LoaderState)
    ensures !r.mounted && r.now == s.now && r.lines == s.lines && r.completions == s.completions
    ensures forall t :: t in r.pending <==> t in s.pending && t.handle !in s.timeouts
  {
    s.(mounted := false, pending := ClearAll(s.pending, s.timeouts))
  }

  /** The state after `n` timeouts have fired (or fewer, when none is left). */
  function Run(s: LoaderState, n: nat): (r: LoaderState)
    ensures r.mounted == s.mounted && s.lines <= r.lines && s.completions <= r.completions
    ensures !s.mounted ==> r.lines == s.lines && r.completions == s.completions
    decreases n
  {
    if n == 0 then s else Run(Fire(s), n - 1)
  }

  /**
   * What holds in every state a loader reaches: the lines shown are a prefix
   * of the script; `onComplete` has run at most once, and if it has then
   * every line is shown, the clock reads the completion time and nothing is
   * pending; while mounted, exactly the timeouts for the lines still to come
   * (and the completion timeout, once due) are pending; pending timeouts are
   * in firing order, none is in the past, and each handle was recorded.
   */
  ghost predicate Inv(s: LoaderState) {
    && |s.lines| <= |FullText| && s.lines == FullText[..|s.lines|]
    && s.completions <= 1
    && (s.completions == 1 ==> |s.lines| == |FullText| && s.now == CompletionTime && s.pending == [])
    && (s.mounted ==> Agenda(s.pending) == Outstanding(|s.lines|, s.completions))
    && (s.mounted && 0 < |s.lines| && s.completions == 0 ==> s.now == LineTime(|s.lines| - 1))
    && Sorted(s.pending)
    && (forall k :: 0 <= k < |s.pending| ==> s.pending[k].handle in s.timeouts && s.now <= s.pending[k].due)
  }

  lemma HeadIsMember<T>(p: seq<T>)
    ensures |p| > 0 ==> p[0] in p
  {
  }

  lemma AgendaTail(p: seq<Timeout>)
    requires p != []
    ensures Agenda(p[1..]) == Agenda(p)[1..]
    ensures Agenda(p)[0] == (p[0].due, p[0].callback)
  {
  }

  lemma AgendaAppend(p: seq<Timeout>, t: Timeout)
    ensures Agenda(p + [t]) == Agenda(p) + [(t.due, t.callback)]
  {
  }

  /** Firing the first outstanding line leaves what is outstanding with one more line shown. */
  lemma OutstandingAfterLine(n: nat, calls: nat)
    requires n < |FullText|
    ensures Outstanding(n, calls)[0] == LineTimeout(n)
    ensures n < |FullText| - 1 ==> Outstanding(n, calls)[1..] == Outstanding(n + 1, calls)
    ensures n == |FullText| - 1 ==> Outstanding(n, calls)[1..] == []
  {
    assert n < |FullText| - 1 ==> Outstanding(n, calls)[1..] == Outstanding(n + 1, calls);
  }

  /** The mounted state satisfies the invariant, with all four lines outstanding. */
  lemma MountInv()
    ensures Inv(Mount())
    ensures Agenda(Mount().pending) == Outstanding(0, 0)
  {
    var s := Mount();
    assert Agenda(s.pending) == Outstanding(0, 0);
    forall k | 0 <= k < |s.pending|
      ensures s.pending[k].handle in s.timeouts && s.now <= s.pending[k].due
    {
      assert s.timeouts[k] == s.pending[k].handle;
    }
  }

  /**
   * One firing keeps the invariant. The timeout fired is the earliest one; a
   * line is appended only while mounted, it is the next script line, and it
   * appears exactly at its scheduled time; `onComplete` runs only while
   * mounted, with every line shown, at the completion time; an unmounted
   * loader changes neither its lines nor its completion count.
   */
  lemma {:induction false} FireInv(s: LoaderState)
    requires Inv(s)
    ensures Inv(Fire(s))
    ensures s.pending != [] ==> forall k :: 0 <= k < |s.pending| ==> Fire(s).now <= s.pending[k].due
    ensures Fire(s).mounted == s.mounted
    ensures Fire(s).lines == s.lines || (s.mounted && Fire(s).lines == s.lines + [FullText[|s.lines|]] &&
                                        Fire(s).now == LineTime(|s.lines|))
    ensures Fire(s).completions == s.completions ||
            (s.mounted && Fire(s).completions == s.completions + 1 &&
             Fire(s).now == CompletionTime && |Fire(s).lines| == |FullText|)
    ensures !s.mounted ==> Fire(s).lines == s.lines && Fire(s).completions == s.completions
  {
    if s.pending != [] {
      var t := s.pending[0];
      var r := Fire(s);
      var n := |s.lines|;
      AgendaTail(s.pending);
      assert forall k :: 0 <= k < |s.pending| ==> t.due <= s.pending[k].due by {
        forall k | 0 < k < |s.pending| ensures t.due <= s.pending[k].due {
          assert Sorted(s.pending);
        }
      }
      if s.mounted {
        if n < |FullText| {
          OutstandingAfterLine(n, s.completions);
          assert t.callback == AppendLine(n, FullText[n]) && t.due == LineTime(n);
          assert r.lines == FullText[..n + 1];
          if n == |FullText| - 1 {
            AgendaAppend(s.pending[1..], Timeout(s.nextHandle, t.due + FinalPause, Finish));
            assert Agenda(r.pending) == Outstanding(n + 1, r.completions);
          } else {
            assert Agenda(r.pending) == Outstanding(n + 1, r.completions);
          }
        } else {
          assert t.callback == Finish && t.due == CompletionTime;
          assert Agenda(r.pending) == Outstanding(n, r.completions);
        }
      }
      forall k | 0 <= k < |r.pending|
        ensures r.pending[k].handle in r.timeouts && r.now <= r.pending[k].due
      {
        if k < |s.pending| - 1 {
          assert r.pending[k] == s.pending[k + 1];
        }
      }
    }
  }

  /** The cleanup keeps the invariant and leaves nothing pending. */
  lemma {:induction false} CleanupInv(s: LoaderState)
    requires Inv(s)
    ensures Inv(Cleanup(s))
    ensures !Cleanup(s).mounted && Cleanup(s).pending == []
    ensures Cleanup(s).lines == s.lines && Cleanup(s).completions == s.completions
  {
    HeadIsMember(Cleanup(s).pending);
  }

  /** Any number of firings keeps the invariant and the mounted flag. */
  lemma {:induction false} RunInv(s: LoaderState, n: nat)
    requires Inv(s)
    ensures Inv(Run(s, n)) && Run(s, n).mounted == s.mounted
    ensures Run(s, n).completions >= s.completions
    decreases n
  {
    if n > 0 {
      FireInv(s);
      RunInv(Fire(s), n - 1);
    }
  }

  /** After the cleanup, whatever fires, no line is appended and `onComplete` never runs. */
  lemma {:induction false} UnmountedStaysInert(s: LoaderState, n: nat)
    requires Inv(s) && !s.mounted
    ensures Run(s, n).lines == s.lines && Run(s, n).completions == s.completions
    decreases n
  {
    if n > 0 {
      FireInv(s);
      UnmountedStaysInert(Fire(s), n - 1);
    }
  }

  /** While mounted and lines remain, the next firing shows the next line at its time. */
  lemma FireShowsNextLine(s: LoaderState)
    requires Inv(s) && s.mounted && |s.lines| < |FullText|
    ensures Fire(s).lines == FullText[..|s.lines| + 1]
    ensures Fire(s).now == LineTime(|s.lines|) && Fire(s).completions == s.completions
  {
    var n := |s.lines|;
    OutstandingAfterLine(n, s.completions);
    AgendaTail(s.pending);
  }

  /** While mounted, with every line shown, the next firing calls `onComplete` at 3400 ms. */
  lemma FireCompletes(s: LoaderState)
    requires Inv(s) && s.mounted && |s.lines| == |FullText| && s.completions == 0
    ensures Fire(s).lines == s.lines && Fire(s).completions == 1 && Fire(s).now == CompletionTime
  {
    AgendaTail(s.pending);
  }

  /**
   * An undisturbed run up to the last line: after `n` firings the first `n`
   * lines are shown, line `n - 1` having appeared at `800 * (n - 1)` ms, and
   * `onComplete` has not run.
   */
  lemma {:induction false} MountedRunShowsLines(n: nat)
    requires n <= |FullText|
    decreases n
    ensures Inv(Run(Mount(), n)) && Run(Mount(), n).mounted
    ensures Run(Mount(), n).lines == FullText[..n] && Run(Mount(), n).completions == 0
    ensures 0 < n ==> Run(Mount(), n).now == LineTime(n - 1)
  {
    if n == 0 {
      MountInv();
    } else {
      MountedRunShowsLines(n - 1);
      var p := Run(Mount(), n - 1);
      RunStep(Mount(), n - 1);
      FireInv(p);
      FireShowsNextLine(p);
    }
  }

  /**
   * Past the last line: from the fifth firing on, every line is shown and
   * `onComplete` has run exactly once, at 3400 ms.
   */
  lemma {:induction false} MountedRunCompletes(n: nat)
    requires n > |FullText|
    decreases n
    ensures Inv(Run(Mount(), n)) && Run(Mount(), n).mounted
    ensures Run(Mount(), n).lines == FullText && Run(Mount(), n).completions == 1
    ensures Run(Mount(), n).now == CompletionTime
  {
    var p := Run(Mount(), n - 1);
    RunStep(Mount(), n - 1);
    if n - 1 == |FullText| {
      MountedRunShowsLines(n - 1);
      assert p.lines == FullText;
      FireInv(p);
      FireCompletes(p);
    } else {
      MountedRunCompletes(n - 1);
      assert p.pending == [];
    }
  }

  /** Firing once more after `n` firings is the same as `n + 1` firings. */
  lemma {:induction false} RunStep(s: LoaderState, n: nat)
    ensures Run(s, n + 1) == Fire(Run(s, n))
    decreases n
  {
    if n > 0 {
      RunStep(Fire(s), n - 1);
    }
  }

  /** `onComplete` has run after `n` firings exactly when `n` exceeds the number of lines. */
  lemma {:induction false} CompletesOnceAtTheEnd(n: nat)
    ensures Run(Mount(), n).completions == (if n > |FullText| then 1 else 0)
  {
    if n <= |FullText| {
      MountedRunShowsLines(n);
    } else {
      MountedRunCompletes(n);
    }
  }

  /**
   * Unmounting at 1000 ms, after the lines due at 0 and 800 ms and before
   * the one due at 1600 ms: two lines stay on screen and `onComplete`
   * never runs, however many timers are later let run.
   */
  lemma {:induction false} UnmountAtOneSecond(m: nat)
    ensures var before := Run(Mount(), 2);
            && before.now <= 1000 && before.pending != [] && 1000 < before.pending[0].due
    ensures var s := Run(Cleanup(Run(Mount(), 2)), m);
            s.lines == FullText[..2] && s.completions == 0
  {
    MountedRunShowsLines(2);
    OutstandingAfterLine(2, 0);
    AgendaTail(Run(Mount(), 2).pending);
    CleanupInv(Run(Mount(), 2));
    UnmountedStaysInert(Cleanup(Run(Mount(), 2)), m);
  }

  /** One mounted `TerminalLoader` and the timers its effect owns, updated in place. */
  class Loader {
    var now: int
    var lines: seq<string>
    var mounted: bool
    var pending: seq<Timeout>
    var timeouts: seq<nat>
    var nextHandle: nat
    var completions: nat

    function State(): LoaderState
      reads this
    {
      LoaderState(now, lines, mounted, pending, timeouts, nextHandle, completions)
    }

    /** The first render shows no line; the effect then schedules the script, line by line. */
    constructor ()
      ensures State() == Mount()
    {
      var scheduled: seq<Timeout> := [];
      var handles: seq<nat> := [];
      var handle: nat := 1;
      for idx := 0 to |FullText|
        invariant |scheduled| == idx && |handles| == idx && handle == idx + 1
        invariant forall k :: 0 <= k < idx ==> scheduled[k] == Scheduled()[k] && handles[k] == k + 1
      {
        var line := FullText[idx];
        scheduled := scheduled + [Timeout(handle, TypingSpeed * idx, AppendLine(idx, line))];
        handles := handles + [handle];
        handle := handle + 1;
      }
      assert scheduled == Scheduled();
      assert handles == seq(|FullText|, k => k + 1);
      now, lines, mounted, completions := 0, [], true, 0;
      pending, timeouts, nextHandle := scheduled, handles, handle;
    }

    /** Lets time run until the earliest pending timeout fires, then runs its callback. */
    method AdvanceToNextTimer() returns (fired: Option<Callback>)
      modifies this
      ensures fired == Next(old(State()))
      ensures State() == Fire(old(State()))
    {
      if pending == [] {
        fired := None;
        return;
      }
      var t := pending[0];
      pending := pending[1..];
      now := t.due;
      fired := Some(t.callback);
      match t.callback
      case AppendLine(idx, line) =>
        if !mounted {
          return;
        }
        lines := lines + [line];
        if idx == |FullText| - 1 {
          var finish := Timeout(nextHandle, t.due + FinalPause, Finish);
          pending := pending + [finish];
          timeouts := timeouts + [nextHandle];
          nextHandle := nextHandle + 1;
        }
      case Finish =>
        if mounted {
          completions := completions + 1;
        }
    }

    /** The effect's cleanup: clear the flag, then clear every recorded handle in turn. */
    method Unmount()
      modifies this
      ensures State() == Cleanup(old(State()))
    {
      mounted := false;
      var remaining := pending;
      for i := 0 to |timeouts|
        invariant remaining == ClearAll(pending, timeouts[..i])
      {
        assert timeouts[..i + 1][..i] == timeouts[..i];
        remaining := ClearTimeout(remaining, timeouts[i]);
      }
      assert timeouts[..|timeouts|] == timeouts;
      pending := remaining;
    }
  }
}
