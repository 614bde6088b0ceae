/** Concurrent `Incr` calls on one key of the in-memory cache, as a state machine over their steps. */
module LocalLock {

  datatype Pid = Pid(n: int)

  /** Where one call of `Incr` stands. `Returned` keeps the value it gave back. */
  datatype Pc = Waiting | Locked | Loaded(current: int) | Stored(value: int) | Returned(value: int) | Failed

  /** The entry being incremented: missing, a decimal number, or something that does not parse. */
  datatype Slot = Absent | Number(n: int) | Garbage

  /** `full` says whether the one-place channel of the lock holds its token. */
  datatype State = State(full: bool, slot: Slot, calls: map<Pid, Pc>)

  /** What `Incr` takes the entry for. */
  function Read(slot: Slot): int { if slot.Number? then slot.n else 0 }

  predicate InCall(s: State, p: Pid, pc: Pc) { p in s.calls && s.calls[p] == pc }

  datatype Action = Start | Acquire | GiveUp | Load | Store | Release | LeakRelease

  /** One step of call `p`. `GiveUp` and `LeakRelease` are the branches of a cancelled context: the first
      leaves without the lock, the second leaves the token behind. */
  predicate Step(s: State, s': State, p: Pid, a: Action) {
    match a
    case Start => p !in s.calls && s' == s.(calls := s.calls[p := Waiting])
    case Acquire => InCall(s, p, Waiting) && !s.full && s' == s.(full := true, calls := s.calls[p := Locked])
    case GiveUp => InCall(s, p, Waiting) && s' == s.(calls := s.calls[p := Failed])
    case Load => InCall(s, p, Locked) && s' == s.(calls := s.calls[p := Loaded(Read(s.slot))])
    case Store =>
      p in s.calls && s.calls[p].Loaded? &&
      s' == s.(slot := Number(s.calls[p].current + 1), calls := s.calls[p := Stored(s.calls[p].current + 1)])
    case Release =>
      p in s.calls && s.calls[p].Stored? && s' == s.(full := false, calls := s.calls[p := Returned(s.calls[p].value)])
    case LeakRelease =>
      p in s.calls && s.calls[p].Stored? && s' == s.(calls := s.calls[p := Returned(s.calls[p].value)])
  }

  ghost predicate Next(s: State, s': State) { exists p, a :: Step(s, s', p, a) }

  predicate Init(s: State) { !s.full && s.calls == map[] }

  predicate Holds(pc: Pc) { pc.Locked? || pc.Loaded? || pc.Stored? }

  predicate HasIncremented(pc: Pc) { pc.Stored? || pc.Returned? }

  function Completed(s: State): set<Pid> { set p | p in s.calls && HasIncremented(s.calls[p]) }

  // ---- What every reachable state satisfies. ----

  /** At most one call holds the lock, and only while the channel is full. */
  ghost predicate Exclusive(s: State) {
    && (forall p :: p in s.calls && Holds(s.calls[p]) ==> s.full)
    && (forall p, q :: p in s.calls && q in s.calls && Holds(s.calls[p]) && Holds(s.calls[q]) ==> p == q)
  }

  /** No update is lost: the entry counts the increments done, and a value that was read is still there. */
  ghost predicate NothingLost(initial: int, s: State) {
    && Read(s.slot) == initial + |Completed(s)|
    && (forall p :: p in s.calls && s.calls[p].Loaded? ==> s.calls[p].current == Read(s.slot))
  }

  /** No value is handed out twice. */
  ghost predicate ValuesDistinct(initial: int, s: State) {
    && (forall p :: p in Completed(s) ==> initial < s.calls[p].value <= Read(s.slot))
    && (forall p, q :: p in Completed(s) && q in Completed(s) && s.calls[p].value == s.calls[q].value ==> p == q)
  }

  ghost predicate Inv(initial: int, s: State) { Exclusive(s) && NothingLost(initial, s) && ValuesDistinct(initial, s) }

  lemma ExclusiveKept(s: State, s': State, p: Pid, a: Action)
    requires Exclusive(s) && Step(s, s', p, a)
    ensures Exclusive(s')
  {
  }

  lemma CompletedAfter(s: State, s': State, p: Pid, a: Action)
    requires Step(s, s', p, a)
    ensures a == Store ==> Completed(s') == Completed(s) + {p} && p !in Completed(s)
    ensures a != Store ==> Completed(s') == Completed(s)
    ensures forall q :: q in Completed(s) ==> s'.calls[q].value == s.calls[q].value
  {
  }

  /** Only the holder writes, so what the others have read stays what is stored. */
  lemma SlotAfter(s: State, s': State, p: Pid, a: Action)
    requires Exclusive(s) && Step(s, s', p, a)
    requires forall q :: q in s.calls && s.calls[q].Loaded? ==> s.calls[q].current == Read(s.slot)
    ensures Read(s'.slot) == Read(s.slot) + (if a == Store then 1 else 0)
    ensures a == Store ==> s'.calls[p] == Stored(Read(s'.slot))
    ensures forall q :: q in s'.calls && s'.calls[q].Loaded? ==> s'.calls[q].current == Read(s'.slot)
  {
    if a == Store { assert Holds(s.calls[p]); }
    forall q | q in s'.calls && s'.calls[q].Loaded? ensures s'.calls[q].current == Read(s'.slot) {
      if q != p { assert q in s.calls && Holds(s.calls[q]); }
    }
  }

  lemma NothingLostKept(initial: int, s: State, s': State, p: Pid, a: Action)
    requires Exclusive(s) && NothingLost(initial, s) && Step(s, s', p, a)
    ensures NothingLost(initial, s')
  {
    hide Completed, Step, Exclusive;
    SlotAfter(s, s', p, a);
    CompletedAfter(s, s', p, a);
  }

  lemma ValuesDistinctKept(initial: int, s: State, s': State, p: Pid, a: Action)
    requires Inv(initial, s) && Step(s, s', p, a)
    ensures ValuesDistinct(initial, s')
  {
    hide Completed, Step, Exclusive;
    SlotAfter(s, s', p, a);
    CompletedAfter(s, s', p, a);
    CompletedAreCalls(s);
    CompletedAreCalls(s');
  }

  lemma CompletedAreCalls(s: State)
    ensures Completed(s) <= s.calls.Keys
  {
  }

  /** A run: any number of calls, interleaved in any way. */
  ghost predicate IsRun(run: seq<State>) {
    |run| > 0 && Init(run[0]) && forall k :: 0 <= k < |run| - 1 ==> Next(run[k], run[k + 1])
  }

  lemma {:induction false} RunKeepsInv(run: seq<State>, k: nat)
    requires IsRun(run) && k < |run|
    ensures Inv(Read(run[0].slot), run[k])
    decreases k
  {
    hide Completed, NothingLost, ValuesDistinct, Exclusive;
    var initial := Read(run[0].slot);
    if k == 0 {
      StartsRight(run[0]);
    } else {
      RunKeepsInv(run, k - 1);
      var s, s' := run[k - 1], run[k];
      assert Next(run[k - 1], run[k - 1 + 1]);
      var p, a :| Step(s, s', p, a);
      ExclusiveKept(s, s', p, a);
      NothingLostKept(initial, s, s', p, a);
      ValuesDistinctKept(initial, s, s', p, a);
    }
  }

  lemma NothingCompleted(s: State)
    requires s.calls == map[]
    ensures Completed(s) == {}
  {
  }

  lemma StartsRight(s: State)
    requires Init(s)
    ensures Inv(Read(s.slot), s)
  {
    NothingCompleted(s);
  }

  // ---- Exactly which values are handed out. ----

  /** Some call has incremented to the value. */
  ghost predicate Issued(s: State, v: int) { exists p :: p in Completed(s) && s.calls[p].value == v }

  /** Every value up to the stored one has been handed out, and nothing was stored before the first increment. */
  ghost predicate Gapless(initial: int, start: Slot, s: State) {
    && (forall v :: initial < v <= Read(s.slot) ==> Issued(s, v))
    && (if Completed(s) == {} then s.slot == start else s.slot.Number?)
  }

  lemma SlotStays(s: State, s': State, p: Pid, a: Action)
    requires Step(s, s', p, a)
    ensures if a == Store then s'.slot.Number? else s'.slot == s.slot
  {
  }

  lemma IssuedStays(s: State, s': State, p: Pid, a: Action, v: int)
    requires Step(s, s', p, a) && Issued(s, v)
    ensures Issued(s', v)
  {
    CompletedAfter(s, s', p, a);
    hide Step, Completed;
    var q :| q in Completed(s) && s.calls[q].value == v;
    assert q in Completed(s');
  }

  lemma GaplessKept(initial: int, start: Slot, s: State, s': State, p: Pid, a: Action)
    requires Inv(initial, s) && Gapless(initial, start, s) && Step(s, s', p, a)
    ensures Gapless(initial, start, s')
  {
    CompletedAfter(s, s', p, a);
    SlotAfter(s, s', p, a);
    SlotStays(s, s', p, a);
    if a == Store { assert p in Completed(s') && Issued(s', s'.calls[p].value); }
    hide Step, Completed, Exclusive, Issued, ValuesDistinct;
    forall v | initial < v <= Read(s'.slot) ensures Issued(s', v) {
      if v <= Read(s.slot) { IssuedStays(s, s', p, a, v); }
    }
  }

  lemma {:induction false} RunKeepsGapless(run: seq<State>, k: nat)
    requires IsRun(run) && k < |run|
    ensures Gapless(Read(run[0].slot), run[0].slot, run[k])
    decreases k
  {
    hide Completed, Inv;
    if k == 0 {
      NothingCompleted(run[0]);
    } else {
      RunKeepsGapless(run, k - 1);
      RunKeepsInv(run, k - 1);
      assert Next(run[k - 1], run[k - 1 + 1]);
      var p, a :| Step(run[k - 1], run[k], p, a);
      GaplessKept(Read(run[0].slot), run[0].slot, run[k - 1], run[k], p, a);
    }
  }

  /** Counting from `m`: the increments done have handed out m + 1 to m + n, each once, and the entry is m + n. */
  ghost predicate CountsFrom(m: int, start: Slot, s: State) {
    var n := |Completed(s)|;
    && s.slot == (if n == 0 then start else Number(m + n))
    && (forall v :: m < v <= m + n <==> Issued(s, v))
    && (forall p, q :: p in Completed(s) && q in Completed(s) && s.calls[p].value == s.calls[q].value ==> p == q)
  }

  /** Lock safety in every state of every run: one holder at most, and a counter that starts from the number
      stored, or from zero if there is no entry or one that is no number. */
  lemma IncrIsSafe(run: seq<State>, k: nat)
    requires IsRun(run) && k < |run|
    ensures var calls := run[k].calls;
      forall p, q :: p in calls && q in calls && Holds(calls[p]) && Holds(calls[q]) ==> p == q
    ensures run[0].slot == Absent ==> CountsFrom(0, Absent, run[k])
    ensures run[0].slot == Garbage ==> CountsFrom(0, Garbage, run[k])
    ensures run[0].slot.Number? ==> CountsFrom(run[0].slot.n, run[0].slot, run[k])
  {
    hide Completed;
    RunKeepsInv(run, k);
    RunKeepsGapless(run, k);
    var s := run[k];
    assert |Completed(s)| == 0 <==> Completed(s) == {};
  }

  /** What a call returns is what it incremented to. */
  lemma ReturnsItsValue(s: State, s': State, p: Pid, a: Action)
    requires Step(s, s', p, a) && p in s.calls && s.calls[p].Stored?
    ensures s'.calls[p] == Returned(s.calls[p].value) && p in Completed(s')
  {
  }

  /** The token was left behind: the channel is full and nobody is going to empty it. */
  ghost predicate Leaked(s: State) { s.full && forall p :: p in s.calls ==> !Holds(s.calls[p]) }

  /** After a cancelled release no call ever gets the lock again: the safety above is all that is left. */
  lemma {:induction false} LeakIsForever(run: seq<State>, j: nat, k: nat)
    requires IsRun(run) && j <= k < |run| && Leaked(run[j])
    ensures Leaked(run[k]) && Completed(run[k]) == Completed(run[j])
    decreases k
  {
    if j < k {
      LeakIsForever(run, j, k - 1);
      assert Next(run[k - 1], run[k - 1 + 1]);
      var p, a :| Step(run[k - 1], run[k], p, a);
      CompletedAfter(run[k - 1], run[k], p, a);
    }
  }

  /** A release empties the channel exactly when the context was not the branch taken. */
  lemma ReleaseOrLeak(initial: int, s: State, s': State, p: Pid, a: Action)
    requires Inv(initial, s) && Step(s, s', p, a) && p in s.calls && s.calls[p].Stored?
    ensures Leaked(s') <==> a == LeakRelease
  {
    assert Holds(s.calls[p]);
  }
}
