/**
 Idempotency receipts under concurrent executes. An execute inserts its receipt as
 pending inside its own transaction, and whoever wants the same key waits for that
 transaction to end; the row and the effect commit or vanish together.
 */
module Idempotency {
  import opened Prelude

  type Text = nat

  /** Tenant, operation and normalized key. */
  datatype Key = Key(tenant: Text, operation: Text, key: Text)
  datatype Receipt = Receipt(fingerprint: Text, completed: bool, payload: Option<Text>)

  datatype Event =
    | Ran(key: Key, fingerprint: Text, payload: Text)
    | Replayed(key: Key, fingerprint: Text, payload: Text)
    | Conflicted(key: Key, fingerprint: Text)
    | Failed(key: Key, fingerprint: Text)

  datatype Pending = Pending(key: Key, fingerprint: Text)

  /** Committed receipts, open transactions that inserted one, and what has happened. */
  datatype State = State(receipts: map<Key, Receipt>, open: map<nat, Pending>, log: seq<Event>)

  datatype Action =
    | Begin(txn: nat, key: Key, fingerprint: Text)
    | Return(txn: nat, payload: Text)
    | Abort(txn: nat)

  predicate Locked(s: State, k: Key) { exists t :: t in s.open && s.open[t].key == k }

  /** The answer for a key whose receipt is committed. */
  function Answer(receipt: Receipt, k: Key, fingerprint: Text): Event {
    if receipt.fingerprint != fingerprint then Conflicted(k, fingerprint)
    else if !receipt.completed || receipt.payload.None? then Conflicted(k, fingerprint)
    else Replayed(k, fingerprint, receipt.payload.value)
  }

  /** An action that is not enabled, such as one that waits for a lock, changes nothing. */
  function Step(s: State, a: Action): State {
    match a
    case Begin(txn, k, f) =>
      if txn in s.open || Locked(s, k) then s
      else if k in s.receipts then s.(log := s.log + [Answer(s.receipts[k], k, f)])
      else s.(open := s.open[txn := Pending(k, f)])
    case Return(txn, payload) =>
      if txn !in s.open then s
      else
        var p := s.open[txn];
        State(s.receipts[p.key := Receipt(p.fingerprint, true, Some(payload))], s.open - {txn},
              s.log + [Ran(p.key, p.fingerprint, payload)])
    case Abort(txn) =>
      if txn !in s.open then s
      else s.(open := s.open - {txn}, log := s.log + [Failed(s.open[txn].key, s.open[txn].fingerprint)])
  }

  function Run(s: State, actions: seq<Action>): State {
    if actions == [] then s else Step(Run(s, actions[..|actions| - 1]), actions[|actions| - 1])
  }

  const EMPTY: State := State(map[], map[], [])

  // ----- what every run keeps -----

  /** At most one open transaction per key, and none for a key whose receipt is committed. */
  predicate LocksOk(s: State) {
    && (forall t, u :: t in s.open && u in s.open && s.open[t].key == s.open[u].key ==> t == u)
    && (forall t :: t in s.open ==> s.open[t].key !in s.receipts)
  }

  predicate ReceiptsOk(s: State) {
    forall k :: k in s.receipts ==> s.receipts[k].completed && s.receipts[k].payload.Some?
  }

  predicate Success(e: Event) { e.Ran? || e.Replayed? }

  /** Every success agrees with the committed receipt of its key. */
  predicate LogOk(s: State) {
    forall i :: 0 <= i < |s.log| && Success(s.log[i]) ==>
      s.log[i].key in s.receipts && s.receipts[s.log[i].key] ==
        Receipt(s.log[i].fingerprint, true, Some(s.log[i].payload))
  }

  function Runs(log: seq<Event>, k: Key): nat {
    if log == [] then 0 else Runs(log[..|log| - 1], k) + if log[|log| - 1].Ran? && log[|log| - 1].key == k then 1 else 0
  }

  ghost predicate RunsOk(s: State) { forall k :: Runs(s.log, k) == if k in s.receipts then 1 else 0 }

  ghost predicate Ok(s: State) { LocksOk(s) && ReceiptsOk(s) && LogOk(s) && RunsOk(s) }

  lemma RunsAppend(log: seq<Event>, e: Event, k: Key)
    ensures Runs(log + [e], k) == Runs(log, k) + if e.Ran? && e.key == k then 1 else 0
  {
    assert (log + [e])[..|log|] == log;
  }

  lemma StepKeepsRuns(s: State, a: Action)
    requires LocksOk(s) && RunsOk(s)
    ensures RunsOk(Step(s, a))
  {
    var s' := Step(s, a);
    forall k ensures Runs(s'.log, k) == if k in s'.receipts then 1 else 0 {
      if |s'.log| > |s.log| { RunsAppend(s.log, s'.log[|s.log|], k); }
    }
  }

  lemma StepKeepsLog(s: State, a: Action)
    requires LocksOk(s) && LogOk(s)
    ensures LogOk(Step(s, a))
  {
  }

  lemma StepKeeps(s: State, a: Action)
    requires Ok(s)
    ensures Ok(Step(s, a))
  {
    StepKeepsRuns(s, a);
    StepKeepsLog(s, a);
  }

  lemma {:induction false} RunKeeps(actions: seq<Action>)
    ensures Ok(Run(EMPTY, actions))
  {
    if actions != [] {
      RunKeeps(actions[..|actions| - 1]);
      StepKeeps(Run(EMPTY, actions[..|actions| - 1]), actions[|actions| - 1]);
    }
  }

  /** In every run the effect of a key commits at most once, and no committed receipt is pending. */
  lemma EffectCommitsOnce(actions: seq<Action>, k: Key)
    ensures var s := Run(EMPTY, actions);
            Runs(s.log, k) <= 1 && (k in s.receipts ==> s.receipts[k].completed && Runs(s.log, k) == 1)
  {
    RunKeeps(actions);
  }

  /** In every run, all successes for a key carry one fingerprint and one payload. */
  lemma SuccessesAgree(actions: seq<Action>, i: nat, j: nat)
    requires var log := Run(EMPTY, actions).log;
             i < |log| && j < |log| && Success(log[i]) && Success(log[j]) && log[i].key == log[j].key
    ensures var log := Run(EMPTY, actions).log;
            log[i].payload == log[j].payload && log[i].fingerprint == log[j].fingerprint
  {
    RunKeeps(actions);
  }

  /**
   Once the effect of a key has committed, no later execute of that key can insert a receipt: it is answered at once.
   */
  lemma CommittedKeyIsAnswered(actions: seq<Action>, txn: nat, k: Key, f: Text)
    requires var s := Run(EMPTY, actions); k in s.receipts && txn !in s.open
    ensures var s := Run(EMPTY, actions);
            var s' := Step(s, Begin(txn, k, f));
            && s'.receipts == s.receipts && s'.open == s.open && s.receipts[k].payload.Some?
            && s'.log == s.log + [if f == s.receipts[k].fingerprint then Replayed(k, f, s.receipts[k].payload.value)
                                  else Conflicted(k, f)]
  {
    RunKeeps(actions);
  }

  /** The receipt table, and execute as one transaction that finds no other open for its key. */
  class ManagerIdempotencyRepository {
    var receipts: map<Key, Receipt>
    ghost var log: seq<Event>

    ghost function Value(): State reads this { State(receipts, map[], log) }

    constructor ()
      ensures Value() == EMPTY
    {
      receipts := map[];
      log := [];
    }

    /**
     `effect` is the payload it returns, or None when it raises or returns no object; the transaction then leaves
     nothing.
     */
    method Execute(k: Key, fingerprint: Text, effect: Option<Text>) returns (payload: Option<Text>, replayed: bool)
      modifies this
      ensures Value() == Run(old(Value()),
                             [Begin(0, k, fingerprint), if effect.Some? then Return(0, effect.value) else Abort(0)])
      ensures payload.Some? && replayed ==> log == old(log) + [Replayed(k, fingerprint, payload.value)]
      ensures payload.Some? && !replayed ==> log == old(log) + [Ran(k, fingerprint, payload.value)]
      ensures payload.None? ==> receipts == old(receipts)
    {
      ghost var before := Value();
      ghost var begin, end := Begin(0, k, fingerprint), if effect.Some? then Return(0, effect.value) else Abort(0);
      RunOfTwo(before, begin, end);
      ghost var rows := receipts;
      var created := k !in receipts;
      if created { receipts := receipts[k := Receipt(fingerprint, false, None)]; }
      var row := receipts[k];
      if !created {
        log := log + [Answer(row, k, fingerprint)];
        if row.fingerprint != fingerprint || !row.completed || row.payload.None? { return None, false; }
        return row.payload, true;
      }
      if effect.None? {
        receipts := receipts - {k};
        assert receipts == rows;
        log := log + [Failed(k, fingerprint)];
        return None, false;
      }
      receipts := receipts[k := Receipt(fingerprint, true, effect)];
      assert receipts == rows[k := Receipt(fingerprint, true, effect)];
      log := log + [Ran(k, fingerprint, effect.value)];
      return effect, false;
    }
  }

  lemma RunOfTwo(s: State, a: Action, b: Action)
    ensures Run(s, [a, b]) == Step(Step(s, a), b)
  {
    assert [a, b][..1] == [a];
    assert [a][..0] == [];
    assert Run(s, [a]) == Step(Run(s, []), a);
  }
}
