/** The keepalive task's re-configuration racing `set_config`. The task copies the cached
    configuration, releases the cache's lock, and sends the copy later; meanwhile the API's
    one client may change both the device and the cache.

    `m` in an action is what the device makes of the configuration requested. Replies arrive.
 */
module ConfigRace {
  import opened Protocol

  /** `set_config` in progress: sent, or executed and not yet cached. */
  datatype Api = Idle | Issued(m: Modulation) | Executed(m: Modulation)

  /** The keepalive round: a ping was refused with ENOTCONFIGURED, then the cache was copied. */
  datatype Round = Resting | Refused | Copied(m: Modulation)

  datatype State = State(held: Option<Modulation>, applied: Option<Modulation>, api: Api, round: Round)

  /** At connect the device holds what is cached, or nothing. */
  predicate Initial(s: State) {
    s.api.Idle? && s.round.Resting? && (s.held.Some? ==> s.held == s.applied)
  }

  datatype Action =
    | UserSets(m: Modulation) | Execute | Refuse | Cache
    | PingRefused | Copy | Resend | GiveUp
    | InactivityExpired

  predicate Enabled(s: State, a: Action) {
    match a
    case UserSets(_) => s.api.Idle?
    case Execute => s.api.Issued?
    case Refuse => s.api.Issued?
    case Cache => s.api.Executed?
    case PingRefused => s.round.Resting? && s.held.None?
    case Copy => s.round.Refused? && s.applied.Some?
    case Resend => s.round.Copied?
    case GiveUp => !s.round.Resting?
    case InactivityExpired => true
  }

  function Do(s: State, a: Action): State
    requires Enabled(s, a)
  {
    match a
    case UserSets(m) => s.(api := Issued(m))
    case Execute => s.(api := Executed(s.api.m), held := Some(s.api.m))
    case Refuse => s.(api := Idle)
    case Cache => s.(api := Idle, applied := Some(s.api.m))
    case PingRefused => s.(round := Refused)
    case Copy => s.(round := Copied(s.applied.value))
    case Resend => s.(round := Resting, held := Some(s.round.m))
    case GiveUp => s.(round := Resting)
    case InactivityExpired => s.(held := None)
  }

  /** The actions taken from an initial state and the states gone through. */
  ghost predicate Run(st: seq<State>, acts: seq<Action>) {
    && |st| == |acts| + 1 && Initial(st[0])
    && forall k :: 0 <= k < |acts| ==> Enabled(st[k], acts[k]) && st[k + 1] == Do(st[k], acts[k])
  }

  /** No call and no round is in progress at the end, and the device is configured. */
  predicate Settled(s: State) {
    s.api.Idle? && s.round.Resting? && s.held.Some?
  }

  // ---------------------------------------------------------------- what the actions say

  /** What changes the configuration the device holds. */
  predicate AtDevice(a: Action) {
    a.Execute? || a.Resend? || a.InactivityExpired?
  }

  /** Nothing of the kind from i on and before k. */
  ghost predicate QuietDevice(acts: seq<Action>, i: nat, k: nat)
    requires k <= |acts|
  {
    forall n :: i <= n < k ==> !AtDevice(acts[n])
  }

  ghost predicate NoneBetween(acts: seq<Action>, a: Action, i: nat, k: nat)
    requires k <= |acts|
  {
    forall n :: i <= n < k ==> acts[n] != a
  }

  /** The copy that Resend r sends was taken at c. */
  ghost predicate RoundOf(acts: seq<Action>, c: nat, r: nat) {
    c < r < |acts| && acts[c] == Copy && acts[r] == Resend && NoneBetween(acts, Copy, c + 1, r)
  }

  /** The device's last change is Resend r; its copy was taken at c; after c the cache was
      stored to, last at w, and that store was not of what the copy had seen. */
  ghost predicate Overtakes(st: seq<State>, acts: seq<Action>, c: nat, r: nat, w: nat)
    requires Run(st, acts)
  {
    && RoundOf(acts, c, r) && QuietDevice(acts, r + 1, |acts|)
    && c < w < |acts| && acts[w] == Cache && NoneBetween(acts, Cache, w + 1, |acts|)
    && Some(st[w].api.m) != st[c].applied
  }

  // ---------------------------------------------------------------- what stays between actions

  lemma {:induction false} HeldStays(st: seq<State>, acts: seq<Action>, i: nat, k: nat)
    requires Run(st, acts) && i <= k <= |acts| && QuietDevice(acts, i, k)
    ensures st[k].held == st[i].held
    decreases k
  {
    if i < k {
      HeldStays(st, acts, i, k - 1);
    }
  }

  lemma {:induction false} AppliedStays(st: seq<State>, acts: seq<Action>, i: nat, k: nat)
    requires Run(st, acts) && i <= k <= |acts| && NoneBetween(acts, Cache, i, k)
    ensures st[k].applied == st[i].applied
    decreases k
  {
    if i < k {
      AppliedStays(st, acts, i, k - 1);
    }
  }

  lemma {:induction false} CopyStays(st: seq<State>, acts: seq<Action>, i: nat, k: nat)
    requires Run(st, acts) && i <= k <= |acts| && NoneBetween(acts, Copy, i, k) && st[k].round.Copied?
    ensures st[i].round == st[k].round
    decreases k
  {
    if i < k {
      CopyStays(st, acts, i, k - 1);
    }
  }

  /** Without a further execution no call becomes one that has executed. */
  lemma {:induction false} NotExecutedStays(st: seq<State>, acts: seq<Action>, i: nat, k: nat)
    requires Run(st, acts) && i <= k <= |acts| && NoneBetween(acts, Execute, i, k) && !st[i].api.Executed?
    ensures !st[k].api.Executed? && NoneBetween(acts, Cache, i, k)
    decreases k
  {
    if i < k {
      NotExecutedStays(st, acts, i, k - 1);
    }
  }

  /** After an execution, and no further one, its configuration is about to be cached or is. */
  lemma {:induction false} ExecutedIsCached(st: seq<State>, acts: seq<Action>, e: nat, k: nat)
    requires Run(st, acts) && e < k <= |acts| && acts[e] == Execute && NoneBetween(acts, Execute, e + 1, k)
    ensures st[k].api == Executed(st[e].api.m) || (!st[k].api.Executed? && st[k].applied == Some(st[e].api.m))
    decreases k
  {
    if e + 1 < k {
      ExecutedIsCached(st, acts, e, k - 1);
    }
  }

  /** The device's last change before k, if there was one. */
  lemma {:induction false} LastChange(acts: seq<Action>, k: nat) returns (last: Option<nat>)
    requires k <= |acts|
    ensures last.None? ==> QuietDevice(acts, 0, k)
    ensures last.Some? ==> last.value < k && AtDevice(acts[last.value]) && QuietDevice(acts, last.value + 1, k)
    decreases k
  {
    if k == 0 {
      return None;
    }
    if AtDevice(acts[k - 1]) {
      return Some(k - 1);
    }
    last := LastChange(acts, k - 1);
  }

  lemma {:induction false} LastStore(acts: seq<Action>, k: nat) returns (last: Option<nat>)
    requires k <= |acts|
    ensures last.None? ==> NoneBetween(acts, Cache, 0, k)
    ensures last.Some? ==> last.value < k && acts[last.value] == Cache && NoneBetween(acts, Cache, last.value + 1, k)
    decreases k
  {
    if k == 0 {
      return None;
    }
    if acts[k - 1] == Cache {
      return Some(k - 1);
    }
    last := LastStore(acts, k - 1);
  }

  lemma {:induction false} CopyOf(st: seq<State>, acts: seq<Action>, k: nat) returns (c: nat)
    requires Run(st, acts) && k <= |acts| && st[k].round.Copied?
    ensures c < k && acts[c] == Copy && NoneBetween(acts, Copy, c + 1, k)
    decreases k
  {
    if acts[k - 1] == Copy {
      return k - 1;
    }
    c := CopyOf(st, acts, k - 1);
  }

  /** What Resend r sends is what the cache held when its copy was taken. */
  lemma SendsWhatItSaw(st: seq<State>, acts: seq<Action>, c: nat, r: nat)
    requires Run(st, acts) && RoundOf(acts, c, r)
    ensures st[r + 1].held == st[c].applied
  {
    CopyStays(st, acts, c + 1, r);
  }

  // ---------------------------------------------------------------- the exact condition

  lemma OvertakenDisagrees(st: seq<State>, acts: seq<Action>, c: nat, r: nat, w: nat)
    requires Run(st, acts) && Overtakes(st, acts, c, r, w)
    ensures st[|acts|].held != st[|acts|].applied
  {
    SendsWhatItSaw(st, acts, c, r);
    HeldStays(st, acts, r + 1, |acts|);
    AppliedStays(st, acts, w + 1, |acts|);
  }

  lemma DisagreementIsOvertaken(st: seq<State>, acts: seq<Action>) returns (c: nat, r: nat, w: nat)
    requires Run(st, acts) && Settled(st[|acts|]) && st[|acts|].held != st[|acts|].applied
    ensures Overtakes(st, acts, c, r, w)
  {
    var n := |acts|;
    var change := LastChange(acts, n);
    if change.None? {
      HeldStays(st, acts, 0, n);
      NotExecutedStays(st, acts, 0, n);
      AppliedStays(st, acts, 0, n);
      assert false;
    }
    r := change.value;
    HeldStays(st, acts, r + 1, n);
    if acts[r] == Execute {
      ExecutedIsCached(st, acts, r, n);
      assert false;
    }
    assert acts[r] == Resend;
    c := CopyOf(st, acts, r);
    SendsWhatItSaw(st, acts, c, r);
    var store := LastStore(acts, n);
    if store.None? || store.value < c {
      AppliedStays(st, acts, c, n);
      assert false;
    }
    w := store.value;
    AppliedStays(st, acts, w + 1, n);
  }

  /** In every run: with no call and no round in progress, a configured device holds another
      configuration than the cached one exactly when its last change is a keepalive's Resend,
      the cache was stored to after the copy was taken, and the last store was of another
      configuration than the copy had seen. */
  lemma DisagreesIff(st: seq<State>, acts: seq<Action>)
    requires Run(st, acts) && Settled(st[|acts|])
    ensures st[|acts|].held != st[|acts|].applied <==> exists c, r, w :: Overtakes(st, acts, c, r, w)
  {
    if st[|acts|].held != st[|acts|].applied {
      var c, r, w := DisagreementIsOvertaken(st, acts);
    }
    if c, r, w :| Overtakes(st, acts, c, r, w) {
      OvertakenDisagrees(st, acts, c, r, w);
    }
  }

  /** The round that ends with Resend r overlaps no call between its execution and its store:
      none was there when the copy was taken, none executed before the copy was sent. */
  ghost predicate KeepsClear(st: seq<State>, acts: seq<Action>, c: nat, r: nat)
    requires Run(st, acts) && RoundOf(acts, c, r)
  {
    !st[c].api.Executed? && NoneBetween(acts, Execute, c, r)
  }

  /** So device and cache agree whenever rounds keep clear of calls. That no call executes or
      stores between copy and Resend would not do: see StoreAfterResend. */
  lemma ClearRoundsAgree(st: seq<State>, acts: seq<Action>)
    requires Run(st, acts) && Settled(st[|acts|])
    requires forall c, r :: RoundOf(acts, c, r) ==> KeepsClear(st, acts, c, r)
    ensures st[|acts|].held == st[|acts|].applied
  {
    if st[|acts|].held != st[|acts|].applied {
      var c, r, w := DisagreementIsOvertaken(st, acts);
      assert KeepsClear(st, acts, c, r);
      assert NoneBetween(acts, Execute, c, |acts|);
      NotExecutedStays(st, acts, c, w);
      assert false;
    }
  }

  // ---------------------------------------------------------------- runs that disagree

  ghost predicate Reaches(st: seq<State>, acts: seq<Action>, before: Modulation, now: State) {
    && Run(st, acts) && st[0] == State(Some(before), Some(before), Idle, Resting) && st[|acts|] == now
  }

  /** Extend a run by one action, to a state given in full. */
  lemma Then(st: seq<State>, acts: seq<Action>, a: Action, next: State) returns (st': seq<State>, acts': seq<Action>)
    requires Run(st, acts) && Enabled(st[|acts|], a) && Do(st[|acts|], a) == next
    ensures st' == st + [next] && acts' == acts + [a] && Run(st', acts')
  {
    st', acts' := st + [next], acts + [a];
  }

  /** The device forgets and refuses the keepalive's ping. */
  lemma RefusedRun(before: Modulation) returns (st: seq<State>, acts: seq<Action>)
    ensures Reaches(st, acts, before, State(None, Some(before), Idle, Refused))
  {
    st, acts := [State(Some(before), Some(before), Idle, Resting)], [];
    st, acts := Then(st, acts, InactivityExpired, State(None, Some(before), Idle, Resting));
    st, acts := Then(st, acts, PingRefused, State(None, Some(before), Idle, Refused));
  }

  /** The keepalive copies the old configuration; the user sets a new one, successfully; then
      the copy is sent and wins. */
  lemma StaleCopyWins(before: Modulation, wanted: Modulation) returns (st: seq<State>, acts: seq<Action>)
    ensures Reaches(st, acts, before, State(Some(before), Some(wanted), Idle, Resting))
  {
    st, acts := RefusedRun(before);
    st, acts := Then(st, acts, Copy, State(None, Some(before), Idle, Copied(before)));
    st, acts := Then(st, acts, UserSets(wanted), State(None, Some(before), Issued(wanted), Copied(before)));
    st, acts := Then(st, acts, Execute, State(Some(wanted), Some(before), Executed(wanted), Copied(before)));
    st, acts := Then(st, acts, Cache, State(Some(wanted), Some(wanted), Idle, Copied(before)));
    st, acts := Then(st, acts, Resend, State(Some(before), Some(wanted), Idle, Resting));
  }

  /** The same end although nothing of the call falls between copy and Resend: both come
      after its execution and before its store. */
  lemma StoreAfterResend(before: Modulation, wanted: Modulation) returns (st: seq<State>, acts: seq<Action>)
    ensures Reaches(st, acts, before, State(Some(before), Some(wanted), Idle, Resting))
    ensures |acts| >= 3 && RoundOf(acts, |acts| - 3, |acts| - 2)
  {
    st, acts := RefusedRun(before);
    st, acts := Then(st, acts, UserSets(wanted), State(None, Some(before), Issued(wanted), Refused));
    st, acts := Then(st, acts, Execute, State(Some(wanted), Some(before), Executed(wanted), Refused));
    st, acts := Then(st, acts, Copy, State(Some(wanted), Some(before), Executed(wanted), Copied(before)));
    st, acts := Then(st, acts, Resend, State(Some(before), Some(before), Executed(wanted), Resting));
    st, acts := Then(st, acts, Cache, State(Some(before), Some(wanted), Idle, Resting));
  }
}
