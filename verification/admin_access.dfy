/** The hidden admin entry (src/components/admin-access.tsx): a global
    key handler that opens a prompt on Ctrl/Cmd+Shift+A or when the last
    five letter keys spell "admin", and timers that clear the typed keys. */
module AdminAccess {
  import opened Text
  import opened Seqs

  /** The fields of a `keydown` event the handler reads. */
  datatype KeyEvent = KeyEvent(key: string, ctrl: bool, meta: bool, shift: bool)

  /** The prompt flag, the typed keys, and the deadlines (in milliseconds)
      of the clear-timers still pending. */
  datatype Access = Access(showPrompt: bool, sequence: seq<string>, timers: seq<nat>)

  const Secret := "admin"
  const SequenceLength := 5
  const ClearDelay := 2000
  const AdminRoute := "/admin"

  const Initial := Access(false, [], [])

  /** Ctrl+Shift+A, or Cmd+Shift+A: `key` is the shifted "A". */
  predicate IsShortcut(e: KeyEvent)
  {
    (e.ctrl || e.meta) && e.shift && e.key == "A"
  }

  /** `key.match(/[a-z]/)`: some character is a lower-case ASCII letter. */
  predicate HasLetter(s: string)
  {
    exists i :: 0 <= i < |s| && IsAsciiLetter(s[i])
  }

  /** The key is recorded (and a clear-timer started). */
  predicate Recorded(e: KeyEvent)
  {
    !IsShortcut(e) && HasLetter(Lower(e.key))
  }

  /** `xs.slice(-n)`: the last `n` elements, or all of them. */
  function LastN(xs: seq<string>, n: nat): (r: seq<string>)
    ensures |r| == if |xs| <= n then |xs| else n
    ensures r == xs[|xs| - |r|..]
  {
    if |xs| <= n then xs else xs[|xs| - n..]
  }

  /** `ys` is a suffix of `xs`. */
  predicate EndsWith(xs: seq<string>, ys: seq<string>)
  {
    |ys| <= |xs| && xs[|xs| - |ys|..] == ys
  }

  /** `keys.join('')`. */
  function Concat(keys: seq<string>): string
  {
    Join(keys, "")
  }

  lemma {:induction false} ConcatSnoc(xs: seq<string>, k: string)
    ensures Concat(xs + [k]) == Concat(xs) + k
  {
    if |xs| == 0 {
      assert xs + [k] == [k];
    } else if |xs| == 1 {
      var ys := xs + [k];
      assert ys[0] == xs[0] && ys[1..] == [k];
      assert Concat(ys[1..]) == k;
      assert Concat(ys) == xs[0] + "" + k;
      assert xs[0] + "" + k == xs[0] + k;
    } else {
      assert (xs + [k])[1..] == xs[1..] + [k];
      ConcatSnoc(xs[1..], k);
    }
  }

  /** The handler itself, timers aside. */
  function HandleKeyDown(s: Access, e: KeyEvent): (r: Access)
    ensures r.timers == s.timers
    ensures IsShortcut(e) ==> r == s.(showPrompt := true)
    ensures !Recorded(e) && !IsShortcut(e) ==> r == s
    ensures Recorded(e) ==> |r.sequence| <= SequenceLength
  {
    if IsShortcut(e) then s.(showPrompt := true)
    else
      var key := Lower(e.key);
      if !HasLetter(key) then s
      else
        var next := LastN(s.sequence + [key], SequenceLength);
        if Concat(next) == Secret then s.(showPrompt := true, sequence := [])
        else s.(sequence := next)
  }

  /** A recorded key either completes the secret, which opens the prompt
      and empties the sequence, or becomes the last of at most five most
      recent keys, with the prompt left as it was. */
  lemma {:induction false} RecordedKeyIsLast(s: Access, e: KeyEvent)
    requires Recorded(e)
    ensures var r := HandleKeyDown(s, e);
      || (r.showPrompt && r.sequence == [])
      || (&& EndsWith(r.sequence, [Lower(e.key)]) && EndsWith(s.sequence + [Lower(e.key)], r.sequence)
          && r.showPrompt == s.showPrompt)
  {
    var key := Lower(e.key);
    var full := s.sequence + [key];
    var next := LastN(full, SequenceLength);
    assert next[|next| - 1..] == [key];
  }

  /** Every deadline in `ts` is later than `now`: no timer is due. */
  predicate AllLater(ts: seq<nat>, now: nat)
  {
    forall i :: 0 <= i < |ts| ==> ts[i] > now
  }

  /** Every deadline in `ts` is at `bound` or later. */
  predicate AllAtLeast(ts: seq<nat>, bound: nat)
  {
    forall i :: 0 <= i < |ts| ==> ts[i] >= bound
  }

  /** The deadlines still in the future, in order. */
  function Pending(ts: seq<nat>, now: nat): (r: seq<nat>)
    ensures AllLater(r, now)
  {
    if ts == [] then []
    else if ts[0] > now then [ts[0]] + Pending(ts[1..], now)
    else Pending(ts[1..], now)
  }

  /** Pending clear-timers whose deadline has passed fire (in any order:
      each empties the sequence). */
  function FireDue(s: Access, now: nat): (r: Access)
    ensures r.showPrompt == s.showPrompt
    ensures !AllLater(s.timers, now) ==> r.sequence == []
    ensures AllLater(s.timers, now) ==> r.sequence == s.sequence && r.timers == s.timers
    ensures AllLater(r.timers, now)
  {
    if !AllLater(s.timers, now) then
      s.(sequence := [], timers := Pending(s.timers, now))
    else s
  }

  /** A key press at time `now`, as written: every recorded key starts its
      own two-second timer, and earlier timers are never cancelled. */
  function PressAsWritten(s: Access, e: KeyEvent, now: nat): (r: Access)
    ensures Recorded(e) ==> r.timers == FireDue(s, now).timers + [now + ClearDelay]
    ensures !Recorded(e) ==> r.timers == FireDue(s, now).timers
  {
    var f := FireDue(s, now);
    var h := HandleKeyDown(f, e);
    if Recorded(e) then h.(timers := f.timers + [now + ClearDelay]) else h
  }

  /** A key press at time `now` with the timer restarted on every recorded
      key, so the keys are cleared only after two seconds without typing. */
  function Press(s: Access, e: KeyEvent, now: nat): (r: Access)
    ensures Recorded(e) ==> r.timers == [now + ClearDelay]
    ensures !Recorded(e) ==> r.timers == FireDue(s, now).timers
    ensures IsShortcut(e) ==> r.showPrompt
  {
    var f := FireDue(s, now);
    var h := HandleKeyDown(f, e);
    if Recorded(e) then h.(timers := [now + ClearDelay]) else h
  }

  /** A plain key press of a single character. */
  function Typed(c: char): KeyEvent
  {
    KeyEvent([c], false, false, false)
  }

  /** A lower-case letter typed plainly is recorded as itself. */
  lemma {:induction false} LetterIsRecorded(c: char)
    requires IsAsciiLetter(c)
    ensures Recorded(Typed(c)) && Lower(Typed(c).key) == [c]
  {
    assert Lower([c]) == [LowerChar(c)];
    assert IsAsciiLetter(Lower([c])[0]);
  }

  /** Recording a letter other than the last of "admin" extends the typed
      suffix and does not open the prompt. */
  lemma {:induction false} StepExtends(s: Access, c: char, prefix: seq<string>)
    requires IsAsciiLetter(c) && c != 'n'
    requires EndsWith(s.sequence, prefix) && |prefix| < SequenceLength
    ensures var r := HandleKeyDown(s, Typed(c));
      EndsWith(r.sequence, prefix + [[c]]) && r.showPrompt == s.showPrompt
  {
    LetterIsRecorded(c);
    var next := LastN(s.sequence + [[c]], SequenceLength);
    ConcatSnoc(next[..|next| - 1], [c]);
    assert next == next[..|next| - 1] + [[c]];
    assert Concat(next) != Secret by {
      assert Concat(next)[|Concat(next)| - 1] == c;
    }
    var full := s.sequence + [[c]];
    assert full[|full| - |prefix + [[c]]|..] == prefix + [[c]];
  }

  /** With every pending timer due after `now`, nothing fires. */
  lemma {:induction false} NothingDue(s: Access, now: nat)
    requires AllLater(s.timers, now)
    ensures FireDue(s, now).sequence == s.sequence && FireDue(s, now).timers == s.timers
  {
  }

  /** The letters of the secret, one key each. */
  const SecretKeys := [['a'], ['d'], ['m'], ['i'], ['n']]

  lemma {:induction false} SecretKeysSpellSecret()
    ensures Concat(SecretKeys) == Secret
  {
    assert SecretKeys[1..] == [['d'], ['m'], ['i'], ['n']];
    assert SecretKeys[2..] == [['m'], ['i'], ['n']];
    assert SecretKeys[3..] == [['i'], ['n']];
    assert SecretKeys[4..] == [['n']];
  }

  /** The final "n" completes the secret when "a", "d", "m", "i" were the
      last four keys. */
  lemma {:induction false} FinalKeyOpens(s: Access)
    requires EndsWith(s.sequence, SecretKeys[..4])
    ensures HandleKeyDown(s, Typed('n')).showPrompt
  {
    LetterIsRecorded('n');
    var full := s.sequence + [['n']];
    var next := LastN(full, SequenceLength);
    assert full[|full| - 5..] == SecretKeys;
    assert next == SecretKeys;
    SecretKeysSpellSecret();
  }

  /** One press of a letter other than "n", with the timer restarting. */
  lemma {:induction false} PressExtends(s: Access, c: char, prefix: seq<string>, now: nat)
    requires IsAsciiLetter(c) && c != 'n'
    requires EndsWith(FireDue(s, now).sequence, prefix) && |prefix| < SequenceLength
    ensures var r := Press(s, Typed(c), now);
      EndsWith(r.sequence, prefix + [[c]]) && r.timers == [now + ClearDelay]
  {
    LetterIsRecorded(c);
    StepExtends(FireDue(s, now), c, prefix);
  }

  /** One letter of the secret other than the last: the typed suffix
      grows by that letter and the timer restarts. */
  lemma {:induction false} PressSecretLetter(s: Access, c: char, k: nat, now: nat)
    requires k < 4 && [c] == SecretKeys[k]
    requires EndsWith(FireDue(s, now).sequence, SecretKeys[..k])
    ensures var r := Press(s, Typed(c), now);
      EndsWith(r.sequence, SecretKeys[..k + 1]) && r.timers == [now + ClearDelay]
  {
    assert IsAsciiLetter(c) && c != 'n' by {
      assert c == SecretKeys[k][0];
    }
    PressExtends(s, c, SecretKeys[..k], now);
    TakeSnoc(SecretKeys, k);
  }

  /** A timer restarted at `now` has not fired by `later`. */
  lemma {:induction false} RestartedTimerPending(r: Access, now: nat, later: nat)
    requires r.timers == [now + ClearDelay] && later < now + ClearDelay
    ensures FireDue(r, later).sequence == r.sequence
  {
    NothingDue(r, later);
  }

  /** A letter of the secret followed within two seconds by the next key:
      by then the typed suffix has grown by that letter. */
  lemma {:induction false} SecretLetterKept(s: Access, c: char, k: nat, now: nat, later: nat)
    requires k < 4 && [c] == SecretKeys[k]
    requires EndsWith(FireDue(s, now).sequence, SecretKeys[..k])
    requires now <= later < now + ClearDelay
    ensures EndsWith(FireDue(Press(s, Typed(c), now), later).sequence, SecretKeys[..k + 1])
  {
    PressSecretLetter(s, c, k, now);
    RestartedTimerPending(Press(s, Typed(c), now), now, later);
  }

  /** The final "n" pressed after "a", "d", "m", "i" opens the prompt. */
  lemma {:induction false} SecretLastLetter(s: Access, now: nat)
    requires EndsWith(FireDue(s, now).sequence, SecretKeys[..4])
    ensures Press(s, Typed('n'), now).showPrompt
  {
    FinalKeyOpens(FireDue(s, now));
    LetterIsRecorded('n');
    assert Press(s, Typed('n'), now).showPrompt == HandleKeyDown(FireDue(s, now), Typed('n')).showPrompt;
  }

  /** The key of each letter of the secret. */
  lemma {:induction false} SecretKeyOf(j: nat)
    requires j < |Secret|
    ensures SecretKeys[j] == [Secret[j]]
  {
    if j == 0 {
    } else if j == 1 {
    } else if j == 2 {
    } else if j == 3 {
    } else {
    }
  }

  /** The state after the first `n` keys of `keys`, the i-th typed at time
      `t[i]`, with the clear-timer restarted on every key. */
  function TypeRestarting(s: Access, keys: string, t: seq<nat>, n: nat): Access
    requires |t| == |keys| && n <= |keys|
    decreases n
  {
    if n == 0 then s
    else Press(TypeRestarting(s, keys, t, n - 1), Typed(keys[n - 1]), t[n - 1])
  }

  /** The same typing with the timers as written. */
  function TypeAsWritten(s: Access, keys: string, t: seq<nat>, n: nat): Access
    requires |t| == |keys| && n <= |keys|
    decreases n
  {
    if n == 0 then s
    else PressAsWritten(TypeAsWritten(s, keys, t, n - 1), Typed(keys[n - 1]), t[n - 1])
  }

  /** With the timer restarting, once the first `k` letters of "admin" were
      typed less than two seconds apart, the next key finds them as the
      typed suffix. */
  lemma {:induction false} SecretTypedSoFar(s: Access, t: seq<nat>, k: nat)
    requires |t| == |Secret|
    requires forall i :: 0 <= i < 4 ==> t[i] <= t[i + 1] < t[i] + ClearDelay
    requires k <= 4
    ensures EndsWith(FireDue(TypeRestarting(s, Secret, t, k), t[k]).sequence, SecretKeys[..k])
    decreases k
  {
    if k > 0 {
      var j := k - 1;
      SecretTypedSoFar(s, t, j);
      SecretKeyOf(j);
      SecretLetterKept(TypeRestarting(s, Secret, t, j), Secret[j], j, t[j], t[j + 1]);
    }
  }

  /** Typing "admin" with less than two seconds between keys opens the
      prompt, whatever was typed before. */
  lemma {:induction false} TypingSecretOpensPrompt(s: Access, t: seq<nat>)
    requires |t| == |Secret|
    requires forall i :: 0 <= i < 4 ==> t[i] <= t[i + 1] < t[i] + ClearDelay
    ensures TypeRestarting(s, Secret, t, |Secret|).showPrompt
  {
    SecretTypedSoFar(s, t, 4);
    SecretLastLetter(TypeRestarting(s, Secret, t, 4), t[4]);
  }

  /** One press, as written, of a letter other than "n" while no timer is
      due: the letter is recorded, the prompt stays as it was, and one more
      timer is pending. */
  lemma {:induction false} PressAsWrittenExtends(s: Access, c: char, now: nat)
    requires IsAsciiLetter(c) && c != 'n'
    requires AllLater(s.timers, now)
    ensures var r := PressAsWritten(s, Typed(c), now);
      r.showPrompt == s.showPrompt && r.timers == s.timers + [now + ClearDelay]
  {
    LetterIsRecorded(c);
    NothingDue(s, now);
    StepExtends(s, c, []);
  }

  /** When a timer is due, the sequence is emptied first, so a lone "n"
      cannot complete the secret. */
  lemma {:induction false} DueTimerDropsPrefix(s: Access, now: nat)
    requires |s.timers| > 0 && s.timers[0] <= now && !s.showPrompt
    ensures !PressAsWritten(s, Typed('n'), now).showPrompt
  {
    LetterIsRecorded('n');
    var f := FireDue(s, now);
    assert f.sequence == [] && !f.showPrompt;
    var next := LastN(f.sequence + [['n']], SequenceLength);
    assert next == [['n']];
    assert Concat(next) == "n";
  }

  /** Appending a deadline keeps the first one, and keeps every deadline at
      or after a bound the new one also meets. */
  lemma {:induction false} AppendTimer(ts: seq<nat>, d: nat, bound: nat)
    requires AllAtLeast(ts, bound)
    requires d >= bound
    ensures AllAtLeast(ts + [d], bound)
    ensures (ts + [d])[0] == if ts == [] then d else ts[0]
  {
    forall i | 0 <= i < |ts + [d]|
      ensures (ts + [d])[i] >= bound
    {
      if i < |ts| {
        assert (ts + [d])[i] == ts[i];
      }
    }
  }

  /** One letter other than "n", as written, before the first pending
      timer is due: the prompt stays closed, every timer stays at or after
      that deadline, and the first timer stays first (or, with none
      pending, the new one is). */
  lemma {:induction false} AsWrittenLetter(before: Access, c: char, now: nat, deadline: nat)
    requires IsAsciiLetter(c) && c != 'n'
    requires !before.showPrompt && AllAtLeast(before.timers, deadline)
    requires now < deadline <= now + ClearDelay
    ensures var r := PressAsWritten(before, Typed(c), now);
      && !r.showPrompt
      && AllAtLeast(r.timers, deadline)
      && |r.timers| > 0
      && r.timers[0] == if before.timers == [] then now + ClearDelay else before.timers[0]
  {
    assert AllLater(before.timers, now);
    PressAsWrittenExtends(before, c, now);
    AppendTimer(before.timers, now + ClearDelay, deadline);
  }

  /** As written, while the first four letters come within two seconds of
      the first, the prompt stays closed and the first key's timer stays
      pending and first. */
  lemma {:induction false} AsWrittenSoFar(s: Access, t: seq<nat>, k: nat)
    requires !s.showPrompt && s.timers == []
    requires |t| == |Secret|
    requires forall i :: 0 <= i < 4 ==> t[0] <= t[i] < t[0] + ClearDelay
    requires k <= 4
    ensures var r := TypeAsWritten(s, Secret, t, k);
      && !r.showPrompt
      && AllAtLeast(r.timers, t[0] + ClearDelay)
      && (k > 0 ==> |r.timers| > 0 && r.timers[0] == t[0] + ClearDelay)
    decreases k
  {
    if k > 0 {
      var j := k - 1;
      AsWrittenSoFar(s, t, j);
      SecretKeyOf(j);
      assert t[0] <= t[j] < t[0] + ClearDelay;
      AsWrittenLetter(TypeAsWritten(s, Secret, t, j), Secret[j], t[j], t[0] + ClearDelay);
    }
  }

  /** As written, the timer started by the first key fires two seconds
      later even while typing continues: if the final "n" comes two seconds
      or more after the "a", the prompt stays closed however short each
      pause was. */
  lemma {:induction false} SlowSecretMissesPrompt(s: Access, t: seq<nat>)
    requires !s.showPrompt && s.timers == []
    requires |t| == |Secret|
    requires forall i :: 0 <= i < 4 ==> t[0] <= t[i] < t[0] + ClearDelay
    requires t[0] + ClearDelay <= t[4]
    ensures !TypeAsWritten(s, Secret, t, |Secret|).showPrompt
  {
    AsWrittenSoFar(s, t, 4);
    DueTimerDropsPrefix(TypeAsWritten(s, Secret, t, 4), t[4]);
  }

  /** Key times of "admin" typed at a steady 600 ms per key. */
  const SteadyTimes: seq<nat> := [0, 600, 1200, 1800, 2400]

  /** Steady typing from a fresh page: as written, the prompt stays
      closed. */
  lemma {:induction false} SteadyTypingMissesPrompt()
    ensures !TypeAsWritten(Initial, Secret, SteadyTimes, |Secret|).showPrompt
  {
    SlowSecretMissesPrompt(Initial, SteadyTimes);
  }

  /** The same steady typing opens the prompt once the timer restarts on
      every key. */
  lemma {:induction false} SteadyTypingOpensPrompt()
    ensures TypeRestarting(Initial, Secret, SteadyTimes, |Secret|).showPrompt
  {
    TypingSecretOpensPrompt(Initial, SteadyTimes);
  }

  /** "Open Admin Panel": navigate to the admin route and hide the prompt. */
  function HandleAdminAccess(s: Access): (r: (Access, string))
    ensures !r.0.showPrompt && r.0.sequence == s.sequence && r.1 == AdminRoute
  {
    (s.(showPrompt := false), AdminRoute)
  }

  /** The close button and "Cancel" only hide the prompt. */
  function HidePrompt(s: Access): (r: Access)
    ensures !r.showPrompt && r.sequence == s.sequence && r.timers == s.timers
  {
    s.(showPrompt := false)
  }
}
