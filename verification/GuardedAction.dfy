/**
 Guarded execution of side-effecting actions over one in-memory idempotency ledger:
 reserve, execute, then complete or release.  Calls interleave wherever the code awaits.
 */
module GuardedAction {
  import opened Common

  datatype Entry = Entry(fingerprint: string, completed: bool)
  type Entries = map<string, Entry>
  datatype Reservation = New | Duplicate | Conflict

  // ----- The ledger -----

  function ReserveIn(entries: Entries, key: string, fingerprint: string): (Entries, Reservation) {
    if key !in entries then (entries[key := Entry(fingerprint, false)], New)
    else (entries, if entries[key].fingerprint == fingerprint then Duplicate else Conflict)
  }

  predicate CanComplete(entries: Entries, key: string, fingerprint: string) {
    key in entries && entries[key].fingerprint == fingerprint
  }

  predicate CanRelease(entries: Entries, key: string, fingerprint: string) {
    CanComplete(entries, key, fingerprint) && !entries[key].completed
  }

  /** Each method returns whether it went through; otherwise it throws and changes nothing. */
  class InMemoryIdempotencyLedger {
    var entries: Entries

    constructor ()
      ensures entries == map[]
    {
      entries := map[];
    }

    method Reserve(key: string, fingerprint: string) returns (r: Reservation)
      modifies this
      ensures (entries, r) == ReserveIn(old(entries), key, fingerprint)
    {
      if key !in entries {
        entries := entries[key := Entry(fingerprint, false)];
        return New;
      }
      return if entries[key].fingerprint == fingerprint then Duplicate else Conflict;
    }

    method Complete(key: string, fingerprint: string) returns (ok: bool)
      modifies this
      ensures ok == CanComplete(old(entries), key, fingerprint)
      ensures entries == if ok then old(entries)[key := Entry(fingerprint, true)] else old(entries)
    {
      if key !in entries || entries[key].fingerprint != fingerprint { return false; }
      entries := entries[key := entries[key].(completed := true)];
      return true;
    }

    method Release(key: string, fingerprint: string) returns (ok: bool)
      modifies this
      ensures ok == CanRelease(old(entries), key, fingerprint)
      ensures entries == if ok then old(entries) - {key} else old(entries)
    {
      if key !in entries || entries[key].fingerprint != fingerprint { return false; }
      if entries[key].completed { return false; }
      entries := entries - {key};
      return true;
    }
  }

  // ----- The idempotency tail of the action gate -----

  datatype Gate = Allowed(reserved: bool) | DuplicateExecution | IdempotencyConflict | KeyRequired

  predicate UsableKey(key: Option<string>) {
    key.Some? && 8 <= |key.value| <= 256
  }

  function GateTail(entries: Entries, requiresIdempotency: bool, key: Option<string>, fingerprint: string): (Entries, Gate) {
    if !requiresIdempotency then (entries, Allowed(false))
    else if !UsableKey(key) then (entries, KeyRequired)
    else
      var (next, state) := ReserveIn(entries, key.value, fingerprint);
      (next, match state case New => Allowed(true) case Duplicate => DuplicateExecution case Conflict => IdempotencyConflict)
  }

  method EvaluateGate(ledger: InMemoryIdempotencyLedger, requiresIdempotency: bool, key: Option<string>, fingerprint: string) returns (gate: Gate)
    modifies ledger
    ensures (ledger.entries, gate) == GateTail(old(ledger.entries), requiresIdempotency, key, fingerprint)
  {
    if !requiresIdempotency { return Allowed(false); }
    if !UsableKey(key) { return KeyRequired; }
    var state := ledger.Reserve(key.value, fingerprint);
    match state
    case New => return Allowed(true);
    case Duplicate => return DuplicateExecution;
    case Conflict => return IdempotencyConflict;
  }

  // ----- One call, from the gate to its end -----

  datatype Ending = Rejected(gate: Gate) | CallbackThrew | ExecuteThrew | CompletionThrew | Returned

  // What user code does when it is called: the decision callback and the action may throw.
  datatype UserCode = UserCode(callbackThrows: bool, executeThrows: bool)

  // With no other call in between: a failed action leaves the ledger as it was, so the key may be used again;
  // a returned one leaves the key completed.
  method ExecuteGuardedAction(ledger: InMemoryIdempotencyLedger, requiresIdempotency: bool, key: Option<string>, fingerprint: string, user: UserCode)
    returns (ending: Ending)
    modifies ledger
    ensures var (entries, gate) := GateTail(old(ledger.entries), requiresIdempotency, key, fingerprint);
      ending == (if user.callbackThrows then CallbackThrew else if !gate.Allowed? then Rejected(gate)
                 else if user.executeThrows then ExecuteThrew else Returned)
    ensures ending.Rejected? || ending.ExecuteThrew? ==> ledger.entries == old(ledger.entries)
    ensures ending.Returned? && requiresIdempotency ==> ledger.entries == old(ledger.entries)[key.value := Entry(fingerprint, true)]
    ensures ending.CallbackThrew? || !requiresIdempotency ==> ledger.entries == GateTail(old(ledger.entries), requiresIdempotency, key, fingerprint).0
  {
    var gate := EvaluateGate(ledger, requiresIdempotency, key, fingerprint);
    if user.callbackThrows { return CallbackThrew; }
    if !gate.Allowed? { return Rejected(gate); }
    if user.executeThrows {
      if gate.reserved {
        var released := ledger.Release(key.value, fingerprint);
        assert ledger.entries == old(ledger.entries);
      }
      return ExecuteThrew;
    }
    if gate.reserved {
      var completed := ledger.Complete(key.value, fingerprint);
      if !completed { return CompletionThrew; }
    }
    return Returned;
  }

  // ----- Any number of calls, interleaved -----

  datatype Phase = Refused | Reserved | Executing | Abandoned | Failed | Succeeded | Unrecorded
  datatype Call = Call(key: Option<string>, fingerprint: string, sideEffect: bool, phase: Phase)
  datatype World = World(entries: Entries, calls: map<nat, Call>)

  datatype Step =
    | Enter(c: nat, key: Option<string>, fingerprint: string, sideEffect: bool)
    | CallbackThrows(c: nat)
    | Start(c: nat)
    | ExecuteThrows(c: nat)
    | ExecuteReturns(c: nat)
    | CompletionFails(c: nat)

  predicate InPhase(w: World, c: nat, phase: Phase) {
    c in w.calls && w.calls[c].phase == phase
  }

  predicate Enabled(w: World, step: Step) {
    match step
    case Enter(c, _, _, _) => c !in w.calls
    case CallbackThrows(c) => InPhase(w, c, Reserved)
    case Start(c) => InPhase(w, c, Reserved)
    case ExecuteThrows(c) => InPhase(w, c, Executing)
    case ExecuteReturns(c) => InPhase(w, c, Executing)
    case CompletionFails(c) => InPhase(w, c, Executing)
  }

  function Move(w: World, c: nat, phase: Phase): World
    requires c in w.calls
  {
    w.(calls := w.calls[c := w.calls[c].(phase := phase)])
  }

  // Only a call that reserved its key touches the ledger again.
  function Next(w: World, step: Step): World
    requires Enabled(w, step)
  {
    match step
    case Enter(c, key, fingerprint, sideEffect) =>
      var (entries, gate) := GateTail(w.entries, sideEffect, key, fingerprint);
      World(entries, w.calls[c := Call(key, fingerprint, sideEffect, if gate.Allowed? then Reserved else Refused)])
    case CallbackThrows(c) => Move(w, c, Abandoned)
    case Start(c) => Move(w, c, Executing)
    case ExecuteThrows(c) =>
      var call := w.calls[c];
      var released := call.sideEffect && call.key.Some? && CanRelease(w.entries, call.key.value, call.fingerprint);
      Move(if released then w.(entries := w.entries - {call.key.value}) else w, c, Failed)
    case ExecuteReturns(c) =>
      var call := w.calls[c];
      if call.sideEffect && call.key.Some? then
        if CanComplete(w.entries, call.key.value, call.fingerprint) then
          Move(w.(entries := w.entries[call.key.value := Entry(call.fingerprint, true)]), c, Succeeded)
        else Move(w, c, Unrecorded)
      else Move(w, c, Succeeded)
    case CompletionFails(c) => Move(w, c, Unrecorded)
  }

  const IDLE := World(map[], map[])

  predicate Leads(v: World, step: Step, w: World) {
    Enabled(v, step) && Next(v, step) == w
  }

  // The steps, the last one at the end, lead from no calls at all to w.
  ghost predicate RunTo(steps: seq<Step>, w: World)
    decreases |steps|
  {
    if steps == [] then w == IDLE
    else
      var last, before := steps[|steps| - 1], steps[..|steps| - 1];
      exists v :: RunTo(before, v) && Leads(v, last, w)
  }

  // Calls whose reservation of a key still stands.
  predicate Holds(w: World, c: nat, key: string) {
    && c in w.calls && w.calls[c].sideEffect && w.calls[c].key == Some(key)
    && w.calls[c].phase != Refused && w.calls[c].phase != Failed
  }

  // One holder per key in the ledger, none for other keys.
  ghost predicate Inv(w: World) {
    && (forall key :: key in w.entries ==> exists c :: Holds(w, c, key))
    && (forall c, key :: Holds(w, c, key) ==>
          key in w.entries && w.entries[key].fingerprint == w.calls[c].fingerprint && (w.entries[key].completed <==> w.calls[c].phase == Succeeded))
    && (forall c, d, key :: Holds(w, c, key) && Holds(w, d, key) ==> c == d)
    && (forall c :: c in w.calls && w.calls[c].sideEffect && w.calls[c].phase != Refused ==> w.calls[c].key.Some?)
  }

  lemma MoveKeeps(w: World, c: nat, phase: Phase)
    requires Inv(w) && c in w.calls && w.calls[c].phase != Refused && w.calls[c].phase != Failed && w.calls[c].phase != Succeeded
    requires phase != Refused && phase != Failed && (w.calls[c].sideEffect ==> phase != Succeeded)
    ensures Inv(Move(w, c, phase))
  {
    var m := Move(w, c, phase);
    assert forall d, key :: Holds(m, d, key) <==> Holds(w, d, key);
  }

  lemma EnterKeeps(w: World, c: nat, key: Option<string>, fingerprint: string, sideEffect: bool)
    requires Inv(w) && c !in w.calls
    ensures Inv(Next(w, Enter(c, key, fingerprint, sideEffect)))
  {
    var m := Next(w, Enter(c, key, fingerprint, sideEffect));
    assert forall d, k :: Holds(m, d, k) <==> Holds(w, d, k) || (d == c && sideEffect && key == Some(k) && m.calls[c].phase == Reserved);
    forall k | k in m.entries ensures exists d :: Holds(m, d, k) {
      if k in w.entries {
        var d :| Holds(w, d, k);
        assert Holds(m, d, k);
      } else {
        assert Holds(m, c, k);
      }
    }
  }

  lemma FailKeeps(w: World, c: nat)
    requires Inv(w) && InPhase(w, c, Executing)
    ensures Inv(Next(w, ExecuteThrows(c)))
  {
    var m := Next(w, ExecuteThrows(c));
    var call := w.calls[c];
    if call.sideEffect {
      var key := call.key.value;
      assert Holds(w, c, key);
      assert m.entries == w.entries - {key};
    }
    assert forall d, k :: Holds(m, d, k) <==> Holds(w, d, k) && d != c;
    forall k | k in m.entries ensures exists d :: Holds(m, d, k) {
      var d :| Holds(w, d, k);
      assert Holds(m, d, k);
    }
  }

  lemma ReturnKeeps(w: World, c: nat)
    requires Inv(w) && InPhase(w, c, Executing)
    ensures Inv(Next(w, ExecuteReturns(c)))
    ensures InPhase(Next(w, ExecuteReturns(c)), c, Succeeded)
  {
    var m := Next(w, ExecuteReturns(c));
    var call := w.calls[c];
    if call.sideEffect {
      assert Holds(w, c, call.key.value);
      assert m.entries.Keys == w.entries.Keys;
    }
    assert forall d, k :: Holds(m, d, k) <==> Holds(w, d, k);
  }

  lemma StepKeeps(w: World, step: Step)
    requires Inv(w) && Enabled(w, step)
    ensures Inv(Next(w, step))
  {
    match step
    case Enter(c, key, fingerprint, sideEffect) => EnterKeeps(w, c, key, fingerprint, sideEffect);
    case CallbackThrows(c) => MoveKeeps(w, c, Abandoned);
    case Start(c) => MoveKeeps(w, c, Executing);
    case ExecuteThrows(c) => FailKeeps(w, c);
    case ExecuteReturns(c) => ReturnKeeps(w, c);
    case CompletionFails(c) => MoveKeeps(w, c, Unrecorded);
  }

  lemma {:induction false} RunKeeps(steps: seq<Step>, w: World)
    requires RunTo(steps, w)
    ensures Inv(w)
    decreases |steps|
  {
    if steps != [] {
      var last, before := steps[|steps| - 1], steps[..|steps| - 1];
      var v :| RunTo(before, v) && Leads(v, last, w);
      RunKeeps(before, v);
      StepKeeps(v, last);
    }
  }

  // The side-effecting executions of a key that are in flight, or have happened.
  function Executions(w: World, key: string): set<nat> {
    set c | c in w.calls && w.calls[c].sideEffect && w.calls[c].key == Some(key)
      && (w.calls[c].phase == Executing || w.calls[c].phase == Succeeded || w.calls[c].phase == Unrecorded)
  }

  // In every interleaving the executions of a key that are in flight or have succeeded never exceed one.
  lemma AtMostOneExecution(steps: seq<Step>, w: World, key: string)
    requires RunTo(steps, w)
    ensures |Executions(w, key)| <= 1
  {
    RunKeeps(steps, w);
    var es := Executions(w, key);
    forall c, d | c in es && d in es ensures c == d {
      assert Holds(w, c, key) && Holds(w, d, key);
    }
    AtMostOne(es);
  }

  lemma AtMostOne(s: set<nat>)
    requires forall c, d :: c in s && d in s ==> c == d
    ensures |s| <= 1
  {
    if c :| c in s {
      assert s == {c};
    }
  }

  // The in-memory ledger never refuses to complete an execution it let through.
  lemma CompletionGoesThrough(steps: seq<Step>, w: World, c: nat)
    requires RunTo(steps, w) && InPhase(w, c, Executing) && w.calls[c].sideEffect
    ensures w.calls[c].key.Some? && CanComplete(w.entries, w.calls[c].key.value, w.calls[c].fingerprint)
    ensures CanRelease(w.entries, w.calls[c].key.value, w.calls[c].fingerprint)
  {
    RunKeeps(steps, w);
    assert Holds(w, c, w.calls[c].key.value);
  }

  // A new call with a key is let through exactly when no reservation of the key stands.
  lemma RetryOnlyAfterFailure(steps: seq<Step>, w: World, key: string, fingerprint: string)
    requires RunTo(steps, w) && UsableKey(Some(key))
    ensures GateTail(w.entries, true, Some(key), fingerprint).1.Allowed? <==> forall c :: !Holds(w, c, key)
  {
    RunKeeps(steps, w);
  }
}
