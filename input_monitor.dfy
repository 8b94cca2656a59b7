/**
  The capture macro of the input monitor. A hotkey press, when enabled and no
  macro is running, takes the lock, reads the selection through the
  Accessibility API and, failing that, selects all, clears the pasteboard,
  copies and polls the pasteboard a bounded number of times. Captured text goes
  to the delegate; the delegate's completion releases the lock and, when given
  a translation, writes it to the pasteboard and pastes it.

  The operating system is replaced by inputs and a trace: the Accessibility
  result is a parameter, the pasteboard contents seen on successive polls are a
  function `observe` (poll 0, 1, ...), and every key event posted, every
  pasteboard access and every hand-off to the delegate is appended to `log`.
 */
module Monitor {
  import opened Wrappers

  /** Virtual key codes of the keys the macro presses. */
  const KeyA := 0x00
  const KeyC := 0x08
  const KeyV := 0x09

  /** `checkClipboard` is first called with this many retries left. */
  const ClipboardRetries := 20

  datatype Action =
    | KeyEvent(keyCode: int, keyDown: bool, command: bool)  // one CGEvent posted
    | ClearPasteboard
    | WritePasteboard(text: string)
    | ReadPasteboard(seen: Option<string>)
    | Deliver(text: string)                                // delegate.triggerTranslation(for:)

  /** `postKeyEvent`: a key-down and a key-up with the same code and flags. */
  function Keystroke(keyCode: int): seq<Action> {
    [KeyEvent(keyCode, true, true), KeyEvent(keyCode, false, true)]
  }

  /** A read that yields text: present and not empty. */
  predicate Captures(v: Option<string>) {
    v.Some? && v.value != ""
  }

  /** The retries a countdown starting at `retries` goes through. */
  function Budget(retries: int): nat {
    if retries > 0 then retries else 0
  }

  /** The reads of polls 0 to n - 1, in order. */
  function ReadsLog(observe: nat -> Option<string>, n: nat): (r: seq<Action>)
    ensures |r| == n
  {
    if n == 0 then [] else ReadsLog(observe, n - 1) + [ReadPasteboard(observe(n - 1))]
  }

  /** The j-th entry of the reads is the j-th poll's read. */
  lemma {:induction false} ReadsLogAt(observe: nat -> Option<string>, n: nat, j: nat)
    requires j < n
    ensures ReadsLog(observe, n)[j] == ReadPasteboard(observe(j))
  {
    if j < n - 1 {
      ReadsLogAt(observe, n - 1, j);
    }
  }

  datatype PollOutcome = Captured(text: string, polls: nat) | Exhausted(polls: nat)

  /** `checkClipboard(retries:)` entered at poll `k`: the reads counted from
      poll 0, and the text if one of them captured any. At most `retries + 1`
      reads are made, the last one exactly when every read is empty. */
  function Poll(retries: int, observe: nat -> Option<string>, k: nat): (o: PollOutcome)
    ensures k < o.polls <= k + Budget(retries) + 1
    ensures o.Exhausted? ==> o.polls == k + Budget(retries) + 1
    decreases Budget(retries)
  {
    if Captures(observe(k)) then Captured(observe(k).value, k + 1)
    else if retries > 0 then Poll(retries - 1, observe, k + 1)
    else Exhausted(k + 1)
  }

  /** The poll stops at the first read that captures, and hands on what it
      read; every read before it was empty. */
  lemma {:induction false} PollStopsAtFirstCapture(retries: int, observe: nat -> Option<string>, k: nat)
    ensures var o := Poll(retries, observe, k);
            forall j :: k <= j < o.polls - 1 ==> !Captures(observe(j))
    ensures var o := Poll(retries, observe, k);
            o.Captured? ==> Captures(observe(o.polls - 1)) && observe(o.polls - 1).value == o.text
    ensures var o := Poll(retries, observe, k);
            o.Exhausted? ==> !Captures(observe(o.polls - 1))
    decreases Budget(retries)
  {
    if !Captures(observe(k)) && retries > 0 {
      PollStopsAtFirstCapture(retries - 1, observe, k + 1);
    }
  }

  /** The poll gives up exactly when none of its `retries + 1` reads captures. */
  lemma PollExhaustedIff(retries: int, observe: nat -> Option<string>, k: nat)
    ensures Poll(retries, observe, k).Exhausted? <==>
              forall j :: k <= j <= k + Budget(retries) ==> !Captures(observe(j))
  {
    PollStopsAtFirstCapture(retries, observe, k);
  }

  /** What the delegate is given: nothing when there is no delegate. */
  function Handoff(text: string, hasDelegate: bool): seq<Action> {
    if hasDelegate then [Deliver(text)] else []
  }

  /** The effect of one macro run that found the lock free: what it logs,
      the text it captured (the lock stays taken exactly when there is one),
      and what the pasteboard holds afterwards. */
  datatype MacroRun = MacroRun(actions: seq<Action>, captured: Option<string>, pasteboard: Option<string>)

  /** What a poll logs: its reads, then the hand-off of what it captured. */
  function PollActions(retries: int, observe: nat -> Option<string>, hasDelegate: bool): seq<Action> {
    var o := Poll(retries, observe, 0);
    ReadsLog(observe, o.polls) + (if o.Captured? then Handoff(o.text, hasDelegate) else [])
  }

  /** What the fallback logs after Cmd+A: clear, Cmd+C, then the poll. */
  function CopyActions(observe: nat -> Option<string>, hasDelegate: bool): seq<Action> {
    [ClearPasteboard, KeyEvent(KeyC, true, true), KeyEvent(KeyC, false, true)] +
    PollActions(ClipboardRetries, observe, hasDelegate)
  }

  function Macro(ax: Option<string>, observe: nat -> Option<string>, hasDelegate: bool,
                 pasteboard: Option<string>): MacroRun
  {
    if Captures(ax) then
      MacroRun(Handoff(ax.value, hasDelegate), ax, pasteboard)
    else
      var o := Poll(ClipboardRetries, observe, 0);
      var captured := if o.Captured? then Some(o.text) else None;
      MacroRun(Keystroke(KeyA) + CopyActions(observe, hasDelegate), captured, observe(o.polls - 1))
  }

  /** With a non-empty Accessibility selection, that text goes to the delegate
      and no key is pressed and the pasteboard is not touched. */
  lemma MacroAccessibilityPath(ax: Option<string>, observe: nat -> Option<string>, hasDelegate: bool,
                               pasteboard: Option<string>)
    requires Captures(ax)
    ensures var run := Macro(ax, observe, hasDelegate, pasteboard);
            run.captured == ax && run.pasteboard == pasteboard &&
            run.actions == (if hasDelegate then [Deliver(ax.value)] else []) &&
            forall i :: 0 <= i < |run.actions| ==> !run.actions[i].KeyEvent?
  {
  }

  /** Otherwise the macro presses Cmd+A, clears the pasteboard, presses Cmd+C,
      then reads the pasteboard between 1 and 21 times, and hands on the first
      non-empty read, if any. */
  lemma MacroFallbackPath(ax: Option<string>, observe: nat -> Option<string>, hasDelegate: bool,
                          pasteboard: Option<string>)
    requires !Captures(ax)
    ensures var run := Macro(ax, observe, hasDelegate, pasteboard);
            var n := Poll(ClipboardRetries, observe, 0).polls;
            1 <= n <= ClipboardRetries + 1 &&
            run.actions[..5] == [KeyEvent(KeyA, true, true), KeyEvent(KeyA, false, true), ClearPasteboard,
                                 KeyEvent(KeyC, true, true), KeyEvent(KeyC, false, true)] &&
            run.actions[5..5 + n] == ReadsLog(observe, n) &&
            run.actions[5 + n..] == (if run.captured.Some? then Handoff(run.captured.value, hasDelegate) else []) &&
            (forall j :: 0 <= j < n - 1 ==> !Captures(observe(j))) &&
            (run.captured.Some? <==> Captures(observe(n - 1))) &&
            (run.captured.Some? ==> run.captured == observe(n - 1))
  {
    PollStopsAtFirstCapture(ClipboardRetries, observe, 0);
    FallbackTrace(observe, hasDelegate);
  }

  /** The trace of the fallback, cut into its three parts. */
  lemma FallbackTrace(observe: nat -> Option<string>, hasDelegate: bool)
    ensures var o := Poll(ClipboardRetries, observe, 0);
            var actions := Keystroke(KeyA) + CopyActions(observe, hasDelegate);
            actions[..5] == [KeyEvent(KeyA, true, true), KeyEvent(KeyA, false, true), ClearPasteboard,
                             KeyEvent(KeyC, true, true), KeyEvent(KeyC, false, true)] &&
            actions[5..5 + o.polls] == ReadsLog(observe, o.polls) &&
            actions[5 + o.polls..] == (if o.Captured? then Handoff(o.text, hasDelegate) else [])
  {
    var o := Poll(ClipboardRetries, observe, 0);
    var prefix := [KeyEvent(KeyA, true, true), KeyEvent(KeyA, false, true), ClearPasteboard,
                   KeyEvent(KeyC, true, true), KeyEvent(KeyC, false, true)];
    var copy := [ClearPasteboard, KeyEvent(KeyC, true, true), KeyEvent(KeyC, false, true)];
    var polled := ReadsLog(observe, o.polls);
    var tail := if o.Captured? then Handoff(o.text, hasDelegate) else [];
    AppendAssoc(Keystroke(KeyA), copy, polled + tail);
    assert Keystroke(KeyA) + copy == prefix;
    SplitThree(prefix, polled, tail);
  }

  /** The three parts of a concatenation, read back by slicing. */
  lemma SplitThree<T>(a: seq<T>, b: seq<T>, c: seq<T>)
    ensures (a + (b + c))[..|a|] == a
    ensures (a + (b + c))[|a|..|a| + |b|] == b
    ensures (a + (b + c))[|a| + |b|..] == c
  {
    assert (a + (b + c))[|a|..] == b + c;
  }

  /** The macro keeps the lock exactly when it captured text, and it captures
      nothing only when the selection was empty and all 21 reads were empty. */
  lemma MacroLock(ax: Option<string>, observe: nat -> Option<string>, hasDelegate: bool,
                  pasteboard: Option<string>)
    ensures var run := Macro(ax, observe, hasDelegate, pasteboard);
            (run.captured.None? <==>
              !Captures(ax) && forall j :: 0 <= j <= ClipboardRetries ==> !Captures(observe(j))) &&
            (run.captured.Some? ==> Captures(run.captured))
  {
    PollExhaustedIff(ClipboardRetries, observe, 0);
    PollStopsAtFirstCapture(ClipboardRetries, observe, 0);
  }

  /** Text the macro captured is, with a delegate present, the last thing it
      hands on. */
  lemma MacroEndsWithDelivery(ax: Option<string>, observe: nat -> Option<string>, hasDelegate: bool,
                              pasteboard: Option<string>)
    requires hasDelegate
    ensures var run := Macro(ax, observe, hasDelegate, pasteboard);
            run.captured.Some? ==>
              |run.actions| > 0 && run.actions[|run.actions| - 1] == Deliver(run.captured.value)
  {
    if !Captures(ax) {
      MacroFallbackPath(ax, observe, hasDelegate, pasteboard);
      var run := Macro(ax, observe, hasDelegate, pasteboard);
      var n := Poll(ClipboardRetries, observe, 0).polls;
      if run.captured.Some? {
        assert run.actions[5 + n..] == [Deliver(run.captured.value)];
        assert run.actions[|run.actions| - 1] == run.actions[5 + n..][0];
      }
    }
  }

  /** The macro itself never pastes and never writes the pasteboard: the only
      Cmd+V comes from the delegate's completion. */
  lemma MacroNeverPastes(ax: Option<string>, observe: nat -> Option<string>, hasDelegate: bool,
                         pasteboard: Option<string>)
    ensures var run := Macro(ax, observe, hasDelegate, pasteboard);
            forall i :: 0 <= i < |run.actions| ==>
              !run.actions[i].WritePasteboard? && !(run.actions[i].KeyEvent? && run.actions[i].keyCode == KeyV)
  {
    if !Captures(ax) {
      FallbackTrace(observe, hasDelegate);
      var actions := Keystroke(KeyA) + CopyActions(observe, hasDelegate);
      var n := Poll(ClipboardRetries, observe, 0).polls;
      forall i | 0 <= i < |actions|
        ensures !actions[i].WritePasteboard? && !(actions[i].KeyEvent? && actions[i].keyCode == KeyV)
      {
        if i < 5 {
          assert actions[i] == actions[..5][i];
        } else if i < 5 + n {
          assert actions[i] == actions[5..5 + n][i - 5];
          ReadsLogAt(observe, n, i - 5);
        } else {
          assert actions[i] == actions[5 + n..][i - 5 - n];
        }
      }
    }
  }

  lemma AppendAssoc<T>(a: seq<T>, b: seq<T>, c: seq<T>)
    ensures a + b + c == a + (b + c)
  {
  }

  class InputMonitor {
    var isEnabled: bool
    var isMacroRunning: bool
    /** Whether the (weak) delegate is set. */
    var hasDelegate: bool
    /** The string on the general pasteboard. */
    var pasteboard: Option<string>
    /** Everything the monitor has done to the outside world, in order. */
    var log: seq<Action>

    constructor (pasteboard: Option<string>)
      ensures isEnabled && !isMacroRunning && !hasDelegate
      ensures this.pasteboard == pasteboard && log == []
    {
      isEnabled := true;
      isMacroRunning := false;
      hasDelegate := false;
      this.pasteboard := pasteboard;
      log := [];
    }

    /** A hotkey press: ignored while disabled, else one macro run. */
    method HandleHotKey(ax: Option<string>, observe: nat -> Option<string>)
      modifies this
      ensures !old(isEnabled) ==> unchanged(this)
      ensures old(isEnabled) ==> MacroStep(old(isMacroRunning), old(log), old(pasteboard), ax, observe)
      ensures old(isMacroRunning) ==> isMacroRunning
      ensures isEnabled == old(isEnabled) && hasDelegate == old(hasDelegate)
    {
      if !isEnabled {
        return;
      }
      PerformTranslationMacro(ax, observe);
    }

    /** The state a macro run leaves, from the lock, log and pasteboard it
        found: nothing changes when the lock was taken. */
    ghost predicate MacroStep(wasRunning: bool, oldLog: seq<Action>, oldPasteboard: Option<string>,
                              ax: Option<string>, observe: nat -> Option<string>)
      reads this
    {
      if wasRunning then
        isMacroRunning && log == oldLog && pasteboard == oldPasteboard
      else
        var run := Macro(ax, observe, hasDelegate, oldPasteboard);
        log == oldLog + run.actions && isMacroRunning == run.captured.Some? && pasteboard == run.pasteboard
    }

    method PerformTranslationMacro(ax: Option<string>, observe: nat -> Option<string>)
      modifies this
      ensures old(isMacroRunning) ==> unchanged(this)
      ensures MacroStep(old(isMacroRunning), old(log), old(pasteboard), ax, observe)
      ensures isEnabled == old(isEnabled) && hasDelegate == old(hasDelegate)
    {
      if isMacroRunning {
        return;
      }
      isMacroRunning := true;
      if ax.Some? && ax.value != "" {
        HandleCapturedText(ax.value);
        return;
      }
      PostKeyEvent(KeyA, true);
      CopySelection(observe);
      AppendAssoc(old(log), Keystroke(KeyA), CopyActions(observe, hasDelegate));
    }

    /** The part of the fallback scheduled after Cmd+A: clear the pasteboard,
        Cmd+C, then poll with the full retry budget. */
    method CopySelection(observe: nat -> Option<string>)
      modifies this
      ensures var o := Poll(ClipboardRetries, observe, 0);
              log == old(log) + CopyActions(observe, hasDelegate) &&
              pasteboard == observe(o.polls - 1) &&
              isMacroRunning == (o.Captured? && old(isMacroRunning))
      ensures isEnabled == old(isEnabled) && hasDelegate == old(hasDelegate)
    {
      pasteboard := None;
      log := log + [ClearPasteboard];
      PostKeyEvent(KeyC, true);
      ghost var copy := [ClearPasteboard, KeyEvent(KeyC, true, true), KeyEvent(KeyC, false, true)];
      assert log == old(log) + copy;
      CheckClipboard(ClipboardRetries, observe);
      AppendAssoc(old(log), copy, PollActions(ClipboardRetries, observe, hasDelegate));
    }

    /** The countdown poll of the pasteboard. On each poll the pasteboard holds
        what the focused application has put there by then, `observe(k)`. */
    method CheckClipboard(retries: int, observe: nat -> Option<string>)
      modifies this`log, this`pasteboard, this`isMacroRunning
      ensures var o := Poll(retries, observe, 0);
              log == old(log) + PollActions(retries, observe, hasDelegate) &&
              pasteboard == observe(o.polls - 1) &&
              isMacroRunning == (o.Captured? && old(isMacroRunning))
      ensures isEnabled == old(isEnabled) && hasDelegate == old(hasDelegate)
    {
      var remaining := retries;
      var k: nat := 0;
      while true
        invariant Poll(retries, observe, 0) == Poll(remaining, observe, k)
        invariant log == old(log) + ReadsLog(observe, k)
        invariant isMacroRunning == old(isMacroRunning)
        decreases Budget(remaining)
      {
        ReadGeneralPasteboard(observe, k);
        assert log == old(log) + ReadsLog(observe, k + 1);
        if pasteboard.Some? && pasteboard.value != "" {
          assert Poll(remaining, observe, k) == Captured(pasteboard.value, k + 1);
          ghost var polled := ReadsLog(observe, k + 1);
          HandleCapturedText(pasteboard.value);
          AppendAssoc(old(log), polled, Handoff(pasteboard.value, hasDelegate));
          assert PollActions(retries, observe, hasDelegate) == polled + Handoff(pasteboard.value, hasDelegate);
          return;
        } else if remaining > 0 {
          assert Poll(remaining, observe, k) == Poll(remaining - 1, observe, k + 1);
          remaining := remaining - 1;
          k := k + 1;
        } else {
          assert Poll(remaining, observe, k) == Exhausted(k + 1);
          assert PollActions(retries, observe, hasDelegate) == ReadsLog(observe, k + 1) + [];
          isMacroRunning := false;
          return;
        }
      }
    }

    /** `NSPasteboard.general.string(forType: .string)` on poll `k`: the
        pasteboard holds what the focused application has put there by then. */
    method ReadGeneralPasteboard(observe: nat -> Option<string>, k: nat)
      modifies this`log, this`pasteboard
      ensures pasteboard == observe(k)
      ensures log == old(log) + [ReadPasteboard(observe(k))]
    {
      pasteboard := observe(k);
      log := log + [ReadPasteboard(pasteboard)];
    }

    /** Hands the text to the delegate, if there is one. */
    method HandleCapturedText(text: string)
      modifies this`log
      ensures log == old(log) + Handoff(text, hasDelegate)
    {
      if hasDelegate {
        log := log + [Deliver(text)];
      }
    }

    /** The completion passed to the delegate: frees the lock; given a
        translation, puts exactly that text on the pasteboard, then Cmd+V. */
    method Complete(translated: Option<string>)
      modifies this
      ensures !isMacroRunning
      ensures translated.None? ==> log == old(log) && pasteboard == old(pasteboard)
      ensures translated.Some? ==>
                pasteboard == translated &&
                log == old(log) + [ClearPasteboard, WritePasteboard(translated.value)] + Keystroke(KeyV)
      ensures isEnabled == old(isEnabled) && hasDelegate == old(hasDelegate)
    {
      isMacroRunning := false;
      if translated.None? {
        return;
      }
      pasteboard := None;
      log := log + [ClearPasteboard];
      pasteboard := translated;
      log := log + [WritePasteboard(translated.value)];
      PostKeyEvent(KeyV, true);
    }

    method PostKeyEvent(keyCode: int, command: bool)
      modifies this`log
      ensures log == old(log) + [KeyEvent(keyCode, true, command), KeyEvent(keyCode, false, command)]
    {
      log := log + [KeyEvent(keyCode, true, command)];
      log := log + [KeyEvent(keyCode, false, command)];
    }
  }
}
