/** Idempotency keys under concurrent callers, crashes and lease expiry, as a labelled machine: one
    label is one statement of one call, with whatever the database did to it. */
module Idempotency {
  import opened Prelude

  datatype KeyStatus = InProgress | Succeeded | Failed

  /** A row of idempotency_keys. The stored response is known by the transfer it describes. */
  datatype KeyRow = KeyRow(fingerprint: string, status: KeyStatus, response: Option<nat>, transactionId: Option<nat>)

  datatype Reply = Ok(id: nat) | Conflict | StillInProgress | Err

  /** What a call does next. */
  datatype Pc =
    | Reserve | Inspect | Lookup
    | RunInner | Bind(id: nat) | Release
    | ReadLive(id: nat) | Decode(response: Option<nat>)

  datatype Call = Call(key: string, fingerprint: string, pc: Pc)

  datatype Answered = Answered(key: string, fingerprint: string, reply: Reply)

  /** One execution of the inner Create. */
  datatype InnerRun = InnerRun(key: string, fingerprint: string)

  datatype Sys = Sys(
    keys: map<string, KeyRow>,
    bound: map<string, nat>, nextTransfer: nat,
    calls: map<nat, Call>, nextCall: nat,
    runs: seq<InnerRun>, replies: seq<Answered>)

  /** How one statement went: no fault, or a fault that may have been applied all the same; and
      whether the lease had run out by then. */
  datatype Outcome = Outcome(fault: Option<bool>, expired: bool)

  datatype Label = Arrive(key: string, fingerprint: string) | Step(call: nat, outcome: Outcome) | Crash(call: nat)

  predicate Applied(o: Outcome) { o.fault.None? || o.fault.value }

  function Goto(s: Sys, a: nat, pc: Pc): Sys
    requires a in s.calls
  {
    s.(calls := s.calls[a := s.calls[a].(pc := pc)])
  }

  function Answer(s: Sys, a: nat, reply: Reply): Sys
    requires a in s.calls
  {
    s.(calls := s.calls - {a}, replies := s.replies + [Answered(s.calls[a].key, s.calls[a].fingerprint, reply)])
  }

  /** INSERT ... ON CONFLICT DO NOTHING: the row decides who owns the key. */
  function StepReserve(s: Sys, a: nat, o: Outcome): Sys
    requires a in s.calls
  {
    var c := s.calls[a];
    if c.key in s.keys then
      if o.fault.Some? then Answer(s, a, Err) else Goto(s, a, Inspect)
    else
      var s1 := if Applied(o) then s.(keys := s.keys[c.key := KeyRow(c.fingerprint, InProgress, None, None)]) else s;
      if o.fault.Some? then Answer(s1, a, Err) else Goto(s1, a, RunInner)
  }

  /** What is replayed for a row: the live view of its transfer, or else the stored response. */
  function Replay(row: KeyRow): Pc {
    if row.transactionId.Some? then ReadLive(row.transactionId.value) else Decode(row.response)
  }

  /** A call is turned away with a reply, or goes on. */
  datatype Sighting = Turned(reply: Reply) | GoesOn(pc: Pc)

  function Take(s: Sys, a: nat, sight: Sighting): Sys
    requires a in s.calls
  {
    match sight
    case Turned(reply) => Answer(s, a, reply)
    case GoesOn(pc) => Goto(s, a, pc)
  }

  /** What an existing row means to a caller. */
  function Seen(row: KeyRow, fingerprint: string, expired: bool): Sighting {
    if row.fingerprint != fingerprint then Turned(Conflict)
    else if row.status != InProgress then GoesOn(Replay(row))
    else if !expired then Turned(StillInProgress)
    else if row.transactionId.Some? then GoesOn(ReadLive(row.transactionId.value))
    else GoesOn(Lookup)
  }

  /** Past the lease: re-attach to the transfer that carries the key, if there is one. */
  function Reattached(bound: map<string, nat>, key: string): Sighting {
    if key in bound then GoesOn(ReadLive(bound[key])) else Turned(StillInProgress)
  }

  function StepInspect(s: Sys, a: nat, o: Outcome): Sys
    requires a in s.calls
  {
    var c := s.calls[a];
    Take(s, a, if o.fault.Some? || c.key !in s.keys then Turned(Err) else Seen(s.keys[c.key], c.fingerprint, o.expired))
  }

  function StepLookup(s: Sys, a: nat, o: Outcome): Sys
    requires a in s.calls
  {
    Take(s, a, if o.fault.Some? then Turned(StillInProgress) else Reattached(s.bound, s.calls[a].key))
  }

  /** The inner Create: a unique key on the transfer row, and possibly an error after the commit. */
  function StepRun(s: Sys, a: nat, o: Outcome): Sys
    requires a in s.calls
  {
    var c := s.calls[a];
    var s1 := s.(runs := s.runs + [InnerRun(c.key, c.fingerprint)]);
    if !Applied(o) || c.key in s.bound then Goto(s1, a, Release)
    else
      var s2 := s1.(bound := s1.bound[c.key := s1.nextTransfer], nextTransfer := s1.nextTransfer + 1);
      Goto(s2, a, if o.fault.Some? then Release else Bind(s.nextTransfer))
  }

  function Complete(s: Sys, key: string, status: KeyStatus, tx: Option<nat>, response: Option<nat>): Sys {
    if key !in s.keys then s
    else s.(keys := s.keys[key := s.keys[key].(status := status, response := response, transactionId := tx)])
  }

  function StepCall(s: Sys, a: nat, o: Outcome): Sys
    requires a in s.calls
  {
    var c := s.calls[a];
    match c.pc
    case Reserve => StepReserve(s, a, o)
    case Inspect => StepInspect(s, a, o)
    case Lookup => StepLookup(s, a, o)
    case RunInner => StepRun(s, a, o)
    case Bind(id) =>
      Answer(if Applied(o) then Complete(s, c.key, Succeeded, Some(id), Some(id)) else s, a, if o.fault.Some? then Err else Ok(id))
    case Release => Answer(if Applied(o) then Complete(s, c.key, Failed, None, None) else s, a, Err)
    case ReadLive(id) => Answer(s, a, if o.fault.Some? then Err else Ok(id))
    case Decode(response) => Answer(s, a, if response.Some? then Ok(response.value) else Err)
  }

  function Apply(s: Sys, l: Label): Sys {
    match l
    case Arrive(key, fp) => s.(calls := s.calls[s.nextCall := Call(key, fp, Reserve)], nextCall := s.nextCall + 1)
    case Step(a, o) => if a in s.calls then StepCall(s, a, o) else s
    case Crash(a) => s.(calls := s.calls - {a})
  }

  function Exec(s: Sys, ls: seq<Label>): Sys {
    if ls == [] then s else Apply(Exec(s, ls[..|ls|-1]), ls[|ls|-1])
  }

  const Empty: Sys := Sys(map[], map[], 0, map[], 0, [], [])

  // ---------------------------------------------------------------- invariant

  predicate Owns(pc: Pc) { pc.RunInner? || pc.Bind? || pc.Release? }

  predicate Ran(s: Sys, key: string) { exists i :: 0 <= i < |s.runs| && s.runs[i].key == key }

  /** The id is that of the one transfer carrying the key, asked for with the key's own fingerprint. */
  predicate Names(s: Sys, key: string, fingerprint: string, id: nat) {
    && key in s.bound && s.bound[key] == id
    && key in s.keys && s.keys[key].fingerprint == fingerprint
  }

  predicate RowOk(s: Sys, key: string)
    requires key in s.keys
  {
    var row := s.keys[key];
    && row.transactionId == row.response
    && (row.transactionId.Some? ==> key in s.bound && s.bound[key] == row.transactionId.value)
    && (row.status == Succeeded <==> row.transactionId.Some?)
  }

  predicate CallOk(s: Sys, c: Call) {
    && (c.pc != Reserve && c.pc != Inspect ==> c.key in s.keys && s.keys[c.key].fingerprint == c.fingerprint)
    && (c.pc == Inspect ==> c.key in s.keys)
    && (Owns(c.pc) ==> s.keys[c.key].status == InProgress)
    && match c.pc
       case RunInner => !Ran(s, c.key)
       case Bind(id) => Names(s, c.key, c.fingerprint, id)
       case ReadLive(id) => Names(s, c.key, c.fingerprint, id)
       case Decode(response) => response.None?
       case _ => true
  }

  ghost predicate Rows(s: Sys) { forall k :: k in s.keys ==> RowOk(s, k) }

  ghost predicate Calls(s: Sys) {
    && (forall a :: a in s.calls ==> a < s.nextCall && CallOk(s, s.calls[a]))
    && (forall a, b :: a in s.calls && b in s.calls && a != b && s.calls[a].key == s.calls[b].key
          ==> !(Owns(s.calls[a].pc) && Owns(s.calls[b].pc)))
  }

  ghost predicate History(s: Sys) {
    && (forall i, j :: 0 <= i < j < |s.runs| ==> s.runs[i].key != s.runs[j].key)
    && (forall i :: 0 <= i < |s.runs| ==> s.runs[i].key in s.keys && s.keys[s.runs[i].key].fingerprint == s.runs[i].fingerprint)
    && (forall i :: 0 <= i < |s.replies| && s.replies[i].reply.Ok? ==>
          Names(s, s.replies[i].key, s.replies[i].fingerprint, s.replies[i].reply.id))
    && (forall k :: k in s.bound ==> Ran(s, k) && s.bound[k] < s.nextTransfer)
    && (forall k, l :: k in s.bound && l in s.bound && s.bound[k] == s.bound[l] ==> k == l)
  }

  ghost predicate Inv(s: Sys) { Rows(s) && Calls(s) && History(s) }

  // ---------------------------------------------------------------- what no statement takes back

  /** Keys keep their fingerprint, bindings stay, runs and replies only accumulate. */
  ghost predicate Later(s: Sys, s': Sys) {
    && (forall k :: k in s.keys ==> k in s'.keys && s'.keys[k].fingerprint == s.keys[k].fingerprint)
    && (forall k :: k in s.bound ==> k in s'.bound && s'.bound[k] == s.bound[k])
    && s.runs <= s'.runs && s.replies <= s'.replies
  }

  lemma GotoKeepsInv(s: Sys, a: nat, pc: Pc)
    requires Inv(s) && a in s.calls && CallOk(s, s.calls[a].(pc := pc))
    requires Owns(pc) ==> Owns(s.calls[a].pc)
    ensures Inv(Goto(s, a, pc)) && Later(s, Goto(s, a, pc))
  {
  }

  lemma AnswerKeepsInv(s: Sys, a: nat, reply: Reply)
    requires Inv(s) && a in s.calls
    requires reply.Ok? ==> Names(s, s.calls[a].key, s.calls[a].fingerprint, reply.id)
    ensures Inv(Answer(s, a, reply)) && Later(s, Answer(s, a, reply))
  {
  }

  /** A newly reserved key has had no run and no owner before. */
  lemma InsertKeepsInv(s: Sys, key: string, fp: string)
    requires Inv(s) && key !in s.keys
    ensures var s' := s.(keys := s.keys[key := KeyRow(fp, InProgress, None, None)]);
            Inv(s') && Later(s, s') && !Ran(s', key) && (forall a :: a in s'.calls && s'.calls[a].key == key ==> !Owns(s'.calls[a].pc))
  {
  }

  lemma BecomesOwner(s: Sys, a: nat)
    requires Inv(s) && a in s.calls && CallOk(s, s.calls[a].(pc := RunInner))
    requires forall b :: b in s.calls && s.calls[b].key == s.calls[a].key ==> !Owns(s.calls[b].pc)
    ensures Inv(Goto(s, a, RunInner)) && Later(s, Goto(s, a, RunInner))
  {
  }

  lemma LaterTrans(s: Sys, s1: Sys, s2: Sys)
    requires Later(s, s1) && Later(s1, s2)
    ensures Later(s, s2)
  {
  }

  lemma ReserveKeepsInv(s: Sys, a: nat, o: Outcome)
    requires Inv(s) && a in s.calls && s.calls[a].pc == Reserve
    ensures Inv(StepReserve(s, a, o)) && Later(s, StepReserve(s, a, o))
  {
    hide Rows, Calls, History, Later, Goto, Answer, Ran;
    var c := s.calls[a];
    if c.key in s.keys {
      if o.fault.Some? { AnswerKeepsInv(s, a, Err); } else { GotoKeepsInv(s, a, Inspect); }
    } else {
      InsertKeepsInv(s, c.key, c.fingerprint);
      var s1 := s.(keys := s.keys[c.key := KeyRow(c.fingerprint, InProgress, None, None)]);
      if o.fault.None? {
        BecomesOwner(s1, a);
        LaterTrans(s, s1, Goto(s1, a, RunInner));
      } else if Applied(o) {
        AnswerKeepsInv(s1, a, Err);
        LaterTrans(s, s1, Answer(s1, a, Err));
      } else {
        AnswerKeepsInv(s, a, Err);
      }
    }
  }

  lemma InspectKeepsInv(s: Sys, a: nat, o: Outcome)
    requires Inv(s) && a in s.calls && s.calls[a].pc == Inspect
    ensures Inv(StepInspect(s, a, o)) && Later(s, StepInspect(s, a, o))
  {
    hide Later, Goto, Answer, Ran, History;
    var c := s.calls[a];
    assert CallOk(s, c);
    var row := s.keys[c.key];
    assert RowOk(s, c.key);
    if o.fault.None? && row.fingerprint == c.fingerprint && (row.status != InProgress || (o.expired && row.transactionId.Some?)) {
      GotoKeepsInv(s, a, Replay(row));
    } else if o.fault.None? && row.fingerprint == c.fingerprint && o.expired {
      GotoKeepsInv(s, a, Lookup);
    } else {
      AnswerKeepsInv(s, a, if o.fault.Some? then Err else if row.fingerprint != c.fingerprint then Conflict else StillInProgress);
    }
  }

  lemma LookupKeepsInv(s: Sys, a: nat, o: Outcome)
    requires Inv(s) && a in s.calls && s.calls[a].pc == Lookup
    ensures Inv(StepLookup(s, a, o)) && Later(s, StepLookup(s, a, o))
  {
    hide Later, Goto, Answer, Ran, History, Rows;
    var c := s.calls[a];
    assert CallOk(s, c);
    if o.fault.None? && c.key in s.bound {
      GotoKeepsInv(s, a, ReadLive(s.bound[c.key]));
    } else {
      AnswerKeepsInv(s, a, StillInProgress);
    }
  }

  lemma RowsFrame(s: Sys, s': Sys)
    requires Rows(s) && s'.keys == s.keys && forall k :: k in s.bound ==> k in s'.bound && s'.bound[k] == s.bound[k]
    ensures Rows(s')
  {
    forall k | k in s'.keys ensures RowOk(s', k) { assert RowOk(s, k); }
  }

  lemma RanGrows(s: Sys, s1: Sys)
    requires |s1.runs| == |s.runs| + 1 && s1.runs[..|s.runs|] == s.runs
    ensures forall k :: Ran(s1, k) <==> Ran(s, k) || s1.runs[|s.runs|].key == k
  {
    forall k ensures Ran(s1, k) <==> Ran(s, k) || s1.runs[|s.runs|].key == k {
      if Ran(s, k) {
        var i :| 0 <= i < |s.runs| && s.runs[i].key == k;
        assert s1.runs[i] == s.runs[i];
      }
    }
  }

  /** After its run the owner stands at the release of its key. */
  function Recorded(s: Sys, a: nat): Sys
    requires a in s.calls
  {
    Goto(s.(runs := s.runs + [InnerRun(s.calls[a].key, s.calls[a].fingerprint)]), a, Release)
  }

  lemma RecordedCalls(s: Sys, a: nat)
    requires Calls(s) && a in s.calls && s.calls[a].pc == RunInner
    ensures Calls(Recorded(s, a))
  {
    var s1 := Recorded(s, a);
    RanGrows(s, s1);
    hide Ran;
    forall b | b in s1.calls ensures CallOk(s1, s1.calls[b]) {
      assert CallOk(s, s.calls[b]);
    }
  }

  lemma RecordedHistory(s: Sys, a: nat)
    requires History(s) && a in s.calls && CallOk(s, s.calls[a]) && s.calls[a].pc == RunInner
    ensures History(Recorded(s, a))
  {
    var s1 := Recorded(s, a);
    RanGrows(s, s1);
    forall i | 0 <= i < |s.runs| ensures s.runs[i].key != s.calls[a].key {
      assert !Ran(s, s.calls[a].key);
    }
    hide Ran;
    forall i | 0 <= i < |s1.replies| && s1.replies[i].reply.Ok?
      ensures Names(s1, s1.replies[i].key, s1.replies[i].fingerprint, s1.replies[i].reply.id) {
      assert Names(s, s.replies[i].key, s.replies[i].fingerprint, s.replies[i].reply.id);
    }
  }

  /** The run is the key's first. */
  lemma RecordRun(s: Sys, a: nat)
    requires Inv(s) && a in s.calls && s.calls[a].pc == RunInner
    ensures s.calls[a].key !in s.bound && Ran(Recorded(s, a), s.calls[a].key)
    ensures Inv(Recorded(s, a)) && Later(s, Recorded(s, a))
  {
    hide RowOk, Names;
    var s1 := Recorded(s, a);
    assert CallOk(s, s.calls[a]);
    RowsFrame(s, s1);
    RecordedCalls(s, a);
    RecordedHistory(s, a);
    assert s1.runs[|s.runs|].key == s.calls[a].key;
  }

  function Binding(s: Sys, key: string): Sys {
    s.(bound := s.bound[key := s.nextTransfer], nextTransfer := s.nextTransfer + 1)
  }

  lemma BindingCalls(s: Sys, key: string)
    requires Calls(s) && key !in s.bound
    ensures Calls(Binding(s, key))
  {
    var s' := Binding(s, key);
    assert forall k :: Ran(s', k) <==> Ran(s, k);
    hide Ran;
    forall b | b in s'.calls ensures CallOk(s', s'.calls[b]) { assert CallOk(s, s.calls[b]); }
  }

  lemma BindingHistory(s: Sys, key: string)
    requires History(s) && key !in s.bound && Ran(s, key)
    ensures History(Binding(s, key))
  {
    var s' := Binding(s, key);
    assert forall k :: Ran(s', k) <==> Ran(s, k);
    hide Ran;
    forall i | 0 <= i < |s'.replies| && s'.replies[i].reply.Ok?
      ensures Names(s', s'.replies[i].key, s'.replies[i].fingerprint, s'.replies[i].reply.id) {
      assert Names(s, s.replies[i].key, s.replies[i].fingerprint, s.replies[i].reply.id);
    }
  }

  /** The first transfer to carry the key. */
  lemma BindKeepsInv(s: Sys, key: string)
    requires Inv(s) && key !in s.bound && Ran(s, key)
    ensures Inv(Binding(s, key)) && Later(s, Binding(s, key))
  {
    hide RowOk, CallOk, Ran, Names;
    RowsFrame(s, Binding(s, key));
    BindingCalls(s, key);
    BindingHistory(s, key);
  }

  lemma RunKeepsInv(s: Sys, a: nat, o: Outcome)
    requires Inv(s) && a in s.calls && s.calls[a].pc == RunInner
    ensures Inv(StepRun(s, a, o)) && Later(s, StepRun(s, a, o))
  {
    hide Rows, Calls, History, Later, Ran;
    var c := s.calls[a];
    RecordRun(s, a);
    var s1 := Recorded(s, a);
    if Applied(o) {
      var s2 := Binding(s1, c.key);
      BindKeepsInv(s1, c.key);
      LaterTrans(s, s1, s2);
      if o.fault.None? {
        OwnerMayBind(s2, a);
        GotoKeepsInv(s2, a, Bind(s.nextTransfer));
        LaterTrans(s, s2, Goto(s2, a, Bind(s.nextTransfer)));
        assert StepRun(s, a, o) == Goto(s2, a, Bind(s.nextTransfer));
      } else {
        assert StepRun(s, a, o) == s2;
      }
    } else {
      assert StepRun(s, a, o) == s1;
    }
  }

  lemma OwnerMayBind(s: Sys, a: nat)
    requires Calls(s) && a in s.calls && s.calls[a].pc == Release && s.calls[a].key in s.bound
    ensures CallOk(s, s.calls[a].(pc := Bind(s.bound[s.calls[a].key])))
  {
    assert CallOk(s, s.calls[a]);
  }

  /** Recording an outcome is safe once the key has no owner left. */
  lemma CompleteKeepsInv(s: Sys, key: string, status: KeyStatus, tx: Option<nat>)
    requires Inv(s) && status != InProgress && (status == Succeeded <==> tx.Some?)
    requires tx.Some? ==> key in s.bound && s.bound[key] == tx.value
    requires forall a :: a in s.calls && s.calls[a].key == key ==> !Owns(s.calls[a].pc)
    ensures Inv(Complete(s, key, status, tx, tx)) && Later(s, Complete(s, key, status, tx, tx))
  {
    hide Rows, Calls, Ran, Names;
    CompleteRows(s, key, status, tx);
    CompleteCalls(s, key, status, tx);
    CompleteHistory(s, key, status, tx);
  }

  lemma CompleteRows(s: Sys, key: string, status: KeyStatus, tx: Option<nat>)
    requires Rows(s) && status != InProgress && (status == Succeeded <==> tx.Some?)
    requires tx.Some? ==> key in s.bound && s.bound[key] == tx.value
    ensures Rows(Complete(s, key, status, tx, tx))
  {
    var s' := Complete(s, key, status, tx, tx);
    forall k | k in s'.keys ensures RowOk(s', k) { assert RowOk(s, k); }
  }

  lemma CompleteCalls(s: Sys, key: string, status: KeyStatus, tx: Option<nat>)
    requires Calls(s) && forall a :: a in s.calls && s.calls[a].key == key ==> !Owns(s.calls[a].pc)
    ensures Calls(Complete(s, key, status, tx, tx))
  {
    var s' := Complete(s, key, status, tx, tx);
    assert forall k :: Ran(s', k) <==> Ran(s, k);
    hide Ran;
    forall b | b in s'.calls ensures CallOk(s', s'.calls[b]) { assert CallOk(s, s.calls[b]); }
  }

  lemma CompleteHistory(s: Sys, key: string, status: KeyStatus, tx: Option<nat>)
    requires History(s)
    ensures History(Complete(s, key, status, tx, tx))
  {
    var s' := Complete(s, key, status, tx, tx);
    assert forall k :: Ran(s', k) <==> Ran(s, k);
    hide Ran;
    forall i | 0 <= i < |s'.replies| && s'.replies[i].reply.Ok?
      ensures Names(s', s'.replies[i].key, s'.replies[i].fingerprint, s'.replies[i].reply.id) {
      assert Names(s, s.replies[i].key, s.replies[i].fingerprint, s.replies[i].reply.id);
    }
  }

  lemma OwnerLeaves(s: Sys, a: nat, reply: Reply)
    requires Inv(s) && a in s.calls && Owns(s.calls[a].pc)
    ensures forall b :: b in Answer(s, a, reply).calls && s.calls[b].key == s.calls[a].key ==> !Owns(s.calls[b].pc)
  {
  }

  lemma FinishKeepsInv(s: Sys, a: nat, o: Outcome)
    requires Inv(s) && a in s.calls && (s.calls[a].pc.Bind? || s.calls[a].pc.Release?)
    ensures Inv(StepCall(s, a, o)) && Later(s, StepCall(s, a, o))
  {
    hide Rows, History, Later, Ran;
    var c := s.calls[a];
    assert CallOk(s, c);
    var (status, tx, reply) :=
      if c.pc.Bind? then (Succeeded, Some(c.pc.id), if o.fault.Some? then Err else Ok(c.pc.id)) else (Failed, None, Err);
    AnswerKeepsInv(s, a, reply);
    OwnerLeaves(s, a, reply);
    var s1 := Answer(s, a, reply);
    CompleteKeepsInv(s1, c.key, status, tx);
    LaterTrans(s, s1, Complete(s1, c.key, status, tx, tx));
    assert Answer(Complete(s, c.key, status, tx, tx), a, reply) == Complete(s1, c.key, status, tx, tx);
  }

  lemma ApplyKeepsInv(s: Sys, l: Label)
    requires Inv(s)
    ensures Inv(Apply(s, l)) && Later(s, Apply(s, l))
  {
    hide Rows, History, Later, Ran, StepReserve, StepInspect, StepLookup, StepRun, Complete, Answer, Goto;
    match l
    case Arrive(key, fp) => ArriveKeepsInv(s, key, fp);
    case Crash(a) => CrashKeepsInv(s, a);
    case Step(a, o) =>
      if a in s.calls {
        var c := s.calls[a];
        assert CallOk(s, c);
        match c.pc
        case Reserve => ReserveKeepsInv(s, a, o);
        case Inspect => InspectKeepsInv(s, a, o);
        case Lookup => LookupKeepsInv(s, a, o);
        case RunInner => RunKeepsInv(s, a, o);
        case ReadLive(id) => AnswerKeepsInv(s, a, if o.fault.Some? then Err else Ok(id));
        case Decode(response) => AnswerKeepsInv(s, a, Err);
        case _ => FinishKeepsInv(s, a, o);
      } else {
        NothingIsLater(s);
      }
  }

  lemma NothingIsLater(s: Sys)
    ensures Later(s, s)
  {
  }

  lemma ArriveKeepsInv(s: Sys, key: string, fp: string)
    requires Inv(s)
    ensures Inv(Apply(s, Arrive(key, fp))) && Later(s, Apply(s, Arrive(key, fp)))
  {
    var s' := Apply(s, Arrive(key, fp));
    assert forall k :: Ran(s', k) <==> Ran(s, k);
    hide Ran, Rows, RowOk;
    RowsFrame(s, s');
    assert s.nextCall !in s.calls;
    forall b | b in s'.calls ensures CallOk(s', s'.calls[b]) {
      if b in s.calls { assert CallOk(s, s.calls[b]); }
    }
  }

  lemma CrashKeepsInv(s: Sys, a: nat)
    requires Inv(s)
    ensures Inv(Apply(s, Crash(a))) && Later(s, Apply(s, Crash(a)))
  {
    var s' := Apply(s, Crash(a));
    assert forall k :: Ran(s', k) <==> Ran(s, k);
  }

  lemma {:induction false} RunOfLabels(s: Sys, ls: seq<Label>)
    requires Inv(s)
    ensures Inv(Exec(s, ls)) && Later(s, Exec(s, ls))
  {
    hide Inv, Later, Apply;
    if ls == [] {
      NothingIsLater(s);
    } else {
      var mid := Exec(s, ls[..|ls|-1]);
      RunOfLabels(s, ls[..|ls|-1]);
      ApplyKeepsInv(mid, ls[|ls|-1]);
      LaterTrans(s, mid, Exec(s, ls));
    }
  }

  // ---------------------------------------------------------------- theorems

  /** In every interleaving of calls, faults, crashes and lease expiries: the inner Create runs at most
      once for a key, only with the fingerprint the key was reserved with, and every successful reply
      for the key went to that fingerprint and names the one transfer that carries the key. */
  lemma AtMostOneTransferPerKey(ls: seq<Label>)
    ensures var s := Exec(Empty, ls);
            && (forall i, j :: 0 <= i < j < |s.runs| ==> s.runs[i].key != s.runs[j].key)
            && (forall i, j :: 0 <= i < |s.replies| && 0 <= j < |s.replies| && s.replies[i].key == s.replies[j].key
                  && s.replies[i].reply.Ok? && s.replies[j].reply.Ok?
                  ==> s.replies[i].reply == s.replies[j].reply && s.replies[i].fingerprint == s.replies[j].fingerprint)
            && (forall i, j :: 0 <= i < |s.replies| && s.replies[i].reply.Ok? && 0 <= j < |s.runs| && s.runs[j].key == s.replies[i].key
                  ==> s.runs[j].fingerprint == s.replies[i].fingerprint)
            && (forall i :: 0 <= i < |s.replies| && s.replies[i].reply.Ok? ==> Ran(s, s.replies[i].key))
            && (forall i, j :: 0 <= i < |s.replies| && 0 <= j < |s.replies|
                  && s.replies[i].reply.Ok? && s.replies[i].reply == s.replies[j].reply
                  ==> s.replies[i].key == s.replies[j].key)
  {
    hide Exec, Rows, Calls;
    EmptyHasInv();
    RunOfLabels(Empty, ls);
  }

  lemma EmptyHasInv()
    ensures Inv(Empty)
  {
  }

  /** A fingerprint other than the one a key was first reserved with never reaches the inner service,
      now or later, and never gets a successful reply. */
  lemma OtherFingerprintNeverRuns(ls: seq<Label>, more: seq<Label>, key: string, fp: string)
    requires key in Exec(Empty, ls).keys && Exec(Empty, ls).keys[key].fingerprint != fp
    ensures var s := Exec(Exec(Empty, ls), more);
            && InnerRun(key, fp) !in s.runs
            && (forall i :: 0 <= i < |s.replies| && s.replies[i].key == key && s.replies[i].fingerprint == fp ==> !s.replies[i].reply.Ok?)
  {
    hide Exec, Rows, Calls;
    EmptyHasInv();
    RunOfLabels(Empty, ls);
    RunOfLabels(Exec(Empty, ls), more);
  }

  // ---------------------------------------------------------------- keys that can never succeed

  predicate Quiet(s: Sys, key: string) {
    forall a :: a in s.calls ==> s.calls[a].key != key
  }

  predicate Hopeless(s: Sys, key: string) {
    key in s.keys && (s.keys[key].status == Failed || (s.keys[key].status == InProgress && key !in s.bound))
  }

  /** Nobody owns the key or is about to answer for it, and its row replays no transfer. */
  ghost predicate Dead(s: Sys, key: string) {
    && Hopeless(s, key)
    && (forall a :: a in s.calls && s.calls[a].key == key ==>
          !Owns(s.calls[a].pc) && !s.calls[a].pc.ReadLive? && (s.calls[a].pc.Lookup? ==> key !in s.bound))
  }

  /** No new run and no new success for the key. */
  ghost predicate NothingNew(s: Sys, s': Sys, key: string) {
    && s.runs <= s'.runs && s.replies <= s'.replies
    && (forall i :: |s.runs| <= i < |s'.runs| ==> s'.runs[i].key != key)
    && (forall i :: |s.replies| <= i < |s'.replies| && s'.replies[i].key == key ==> !s'.replies[i].reply.Ok?)
  }

  lemma DeadStep(s: Sys, l: Label, key: string)
    requires Inv(s) && Dead(s, key)
    ensures Dead(Apply(s, l), key) && NothingNew(s, Apply(s, l), key)
  {
    hide History, Ran, Names, StepCall;
    if l.Step? && l.call in s.calls {
      var c := s.calls[l.call];
      if c.key == key {
        assert CallOk(s, c) && RowOk(s, key);
        DeadCall(s, l.call, l.outcome, key);
      } else {
        OtherCall(s, l.call, l.outcome, key);
      }
    }
  }

  /** A call on another key touches neither this key's row nor its transfer, runs or replies. */
  lemma OtherCall(s: Sys, a: nat, o: Outcome, key: string)
    requires a in s.calls && s.calls[a].key != key && Dead(s, key)
    ensures Dead(StepCall(s, a, o), key) && NothingNew(s, StepCall(s, a, o), key)
  {
    OtherTables(s, a, o, key);
    OtherHistory(s, a, o, key);
    hide StepCall;
  }

  predicate SameTables(s: Sys, s': Sys, a: nat, key: string) {
    && (key in s'.keys <==> key in s.keys) && (key in s.keys ==> s'.keys[key] == s.keys[key])
    && (key in s'.bound <==> key in s.bound)
    && (forall b :: b in s'.calls ==> b in s.calls && s'.calls[b].key == s.calls[b].key && (b != a ==> s'.calls[b] == s.calls[b]))
  }

  lemma OtherTables(s: Sys, a: nat, o: Outcome, key: string)
    requires a in s.calls && s.calls[a].key != key
    ensures SameTables(s, StepCall(s, a, o), a, key)
  {
    match s.calls[a].pc {
      case Reserve => hide StepInspect, StepLookup, StepRun, Complete;
      case Inspect | Lookup => hide StepReserve, StepRun, Complete, Replay;
      case RunInner => hide StepReserve, StepInspect, StepLookup, Complete;
      case _ => hide StepReserve, StepInspect, StepLookup, StepRun;
    }
  }

  lemma OtherHistory(s: Sys, a: nat, o: Outcome, key: string)
    requires a in s.calls && s.calls[a].key != key
    ensures NothingNew(s, StepCall(s, a, o), key)
  {
    match s.calls[a].pc {
      case Reserve => hide StepInspect, StepLookup, StepRun, Complete;
      case Inspect | Lookup => hide StepReserve, StepRun, Complete, Replay;
      case RunInner => hide StepReserve, StepInspect, StepLookup, Complete;
      case _ => hide StepReserve, StepInspect, StepLookup, StepRun;
    }
  }

  lemma DeadCall(s: Sys, a: nat, o: Outcome, key: string)
    requires a in s.calls && s.calls[a].key == key && Dead(s, key) && CallOk(s, s.calls[a]) && RowOk(s, key)
    ensures Dead(StepCall(s, a, o), key) && NothingNew(s, StepCall(s, a, o), key)
  {
    hide Ran, Names, StepRun, Complete;
  }

  lemma {:induction false} DeadStaysDead(s: Sys, ls: seq<Label>, key: string)
    requires Inv(s) && Dead(s, key)
    ensures Dead(Exec(s, ls), key) && NothingNew(s, Exec(s, ls), key)
  {
    hide Inv, Dead, Apply;
    if ls != [] {
      DeadStaysDead(s, ls[..|ls|-1], key);
      RunOfLabels(s, ls[..|ls|-1]);
      DeadStep(Exec(s, ls[..|ls|-1]), ls[|ls|-1], key);
    }
  }

  /** The calls a retry makes when nothing faults and the lease is over. */
  function Retry(s: Sys, key: string): seq<Label>
    requires key in s.keys
  {
    var step := Sure(s.nextCall);
    [Arrive(key, s.keys[key].fingerprint), step, step, step] + (if s.keys[key].status == InProgress then [step] else [])
  }

  lemma RetrySucceeds(s: Sys, key: string)
    requires Inv(s) && key in s.keys && !Hopeless(s, key)
    ensures !NothingNew(s, Exec(s, Retry(s, key)), key)
  {
    hide Exec, Apply;
    var fp, a := s.keys[key].fingerprint, s.nextCall;
    assert RowOk(s, key);
    var s2 := Retrying(s, key);
    RetryBegins(s, key);
    if s.keys[key].status == InProgress {
      var s3 := Goto(s2, a, Lookup);
      LookedUp(s2, a);
      ReplyIs(s3, a, s.bound[key]);
      ExecFive(s, Retry(s, key));
    } else {
      Replayed(s2, a);
      ReplyIs(s2, a, s.bound[key]);
      ExecFour(s, Retry(s, key));
    }
    RetryAnswers(s, key);
  }

  function Sure(a: nat): Label { Step(a, Outcome(None, true)) }

  /** A retry that has found the key taken. */
  function Retrying(s: Sys, key: string): Sys
    requires key in s.keys
  {
    s.(calls := s.calls[s.nextCall := Call(key, s.keys[key].fingerprint, Inspect)], nextCall := s.nextCall + 1)
  }

  lemma RetryBegins(s: Sys, key: string)
    requires key in s.keys
    ensures Apply(Apply(s, Arrive(key, s.keys[key].fingerprint)), Sure(s.nextCall)) == Retrying(s, key)
  {
  }

  lemma LookedUp(s: Sys, a: nat)
    requires a in s.calls && s.calls[a].pc == Inspect && s.calls[a].key in s.keys
    requires var row := s.keys[s.calls[a].key];
             row.fingerprint == s.calls[a].fingerprint && row.status == InProgress && row.transactionId.None?
    ensures Apply(s, Sure(a)) == Goto(s, a, Lookup)
    ensures s.calls[a].key in s.bound ==>
              Apply(Goto(s, a, Lookup), Sure(a)) == Goto(Goto(s, a, Lookup), a, ReadLive(s.bound[s.calls[a].key]))
  {
  }

  lemma Replayed(s: Sys, a: nat)
    requires a in s.calls && s.calls[a].pc == Inspect && s.calls[a].key in s.keys
    requires var row := s.keys[s.calls[a].key];
             row.fingerprint == s.calls[a].fingerprint && row.status != InProgress && row.transactionId.Some?
    ensures Apply(s, Sure(a)) == Goto(s, a, ReadLive(s.keys[s.calls[a].key].transactionId.value))
  {
  }

  lemma ReplyIs(s: Sys, a: nat, id: nat)
    requires a in s.calls
    ensures Apply(Goto(s, a, ReadLive(id)), Sure(a)).replies == s.replies + [Answered(s.calls[a].key, s.calls[a].fingerprint, Ok(id))]
  {
  }

  lemma RetryAnswers(s: Sys, key: string)
    requires key in s.keys && key in s.bound
    requires Exec(s, Retry(s, key)).replies == s.replies + [Answered(key, s.keys[key].fingerprint, Ok(s.bound[key]))]
    ensures !NothingNew(s, Exec(s, Retry(s, key)), key)
  {
    hide Exec, Retry;
    var s' := Exec(s, Retry(s, key));
    assert s'.replies[|s.replies|] == Answered(key, s.keys[key].fingerprint, Ok(s.bound[key]));
  }

  lemma ExecFour(s: Sys, ls: seq<Label>)
    requires |ls| == 4
    ensures Exec(s, ls) == Apply(Apply(Apply(Apply(s, ls[0]), ls[1]), ls[2]), ls[3])
  {
    hide Apply;
    assert ls[..3][..2] == ls[..2] && ls[..2][..1] == ls[..1] && ls[..1][..0] == [];
    assert Exec(s, ls[..1]) == Apply(s, ls[0]);
    assert Exec(s, ls[..2]) == Apply(Exec(s, ls[..1]), ls[1]);
    assert Exec(s, ls[..3]) == Apply(Exec(s, ls[..2]), ls[2]);
  }

  lemma ExecFive(s: Sys, ls: seq<Label>)
    requires |ls| == 5
    ensures Exec(s, ls) == Apply(Apply(Apply(Apply(Apply(s, ls[0]), ls[1]), ls[2]), ls[3]), ls[4])
  {
    hide Apply;
    ExecFour(s, ls[..4]);
  }

  /** A reserved key nobody is working on can never again succeed, whatever is tried, exactly when it
      was marked failed, or was left in progress without a transfer: a retry is not let through. */
  lemma HopelessExactly(s: Sys, key: string)
    requires Inv(s) && key in s.keys && Quiet(s, key)
    ensures Hopeless(s, key) <==> forall ls :: NothingNew(s, Exec(s, ls), key)
  {
    hide Inv, NothingNew, Exec, Apply;
    if Hopeless(s, key) {
      forall ls ensures NothingNew(s, Exec(s, ls), key) { DeadStaysDead(s, ls, key); }
    } else {
      RetrySucceeds(s, key);
    }
  }

  lemma ExecThree(s: Sys, ls: seq<Label>)
    requires |ls| == 3
    ensures Exec(s, ls) == Apply(Apply(Apply(s, ls[0]), ls[1]), ls[2])
  {
    hide Apply;
    assert ls[..2][..1] == ls[..1] && ls[..1][..0] == [];
    assert Exec(s, ls[..1]) == Apply(s, ls[0]);
    assert Exec(s, ls[..2]) == Apply(Exec(s, ls[..1]), ls[1]);
  }

  /** The caller reserves the key and dies before the inner create. */
  function Abandoning(key: string, fp: string): seq<Label> {
    [Arrive(key, fp), Sure(0), Crash(0)]
  }

  /** The inner create commits its transfer and still reports an error, so the key is marked failed. */
  function FailingAfterCommit(key: string, fp: string): seq<Label> {
    [Arrive(key, fp), Sure(0), Step(0, Outcome(Some(true), false)), Sure(0)]
  }

  /** An abandoned key blocks its request for ever: no transfer was made, and none ever will be. */
  lemma AbandonedKeyIsLost(key: string, fp: string, more: seq<Label>)
    ensures var s := Exec(Empty, Abandoning(key, fp));
            && s.keys == map[key := KeyRow(fp, InProgress, None, None)] && s.bound == map[] && s.runs == []
            && NothingNew(s, Exec(s, more), key)
  {
    hide Inv;
    var ls := Abandoning(key, fp);
    ExecThree(Empty, ls);
    EmptyHasInv();
    RunOfLabels(Empty, ls);
    HopelessExactly(Exec(Empty, ls), key);
  }

  /** The failed key of a transfer that exists: the transfer goes on to move its money, and no retry of
      the request is ever let through to it or told its id. */
  lemma FailedKeyHidesItsTransfer(key: string, fp: string, more: seq<Label>)
    ensures var s := Exec(Empty, FailingAfterCommit(key, fp));
            && s.keys == map[key := KeyRow(fp, Failed, None, None)] && s.bound == map[key := 0]
            && s.runs == [InnerRun(key, fp)] && s.replies == [Answered(key, fp, Err)]
            && NothingNew(s, Exec(s, more), key)
            && Exec(s, more).replies[0] == Answered(key, fp, Err)
            && (forall i :: 0 <= i < |Exec(s, more).replies| && Exec(s, more).replies[i].key == key ==> !Exec(s, more).replies[i].reply.Ok?)
  {
    hide Inv;
    var ls := FailingAfterCommit(key, fp);
    ExecFour(Empty, ls);
    EmptyHasInv();
    RunOfLabels(Empty, ls);
    HopelessExactly(Exec(Empty, ls), key);
  }
}
