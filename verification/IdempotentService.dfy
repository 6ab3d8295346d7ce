/** The idempotent service in its own imperative form. The machine of Idempotency is carried along as
    ghost state; every statement with an effect is one of its labels. */
module IdempotentService {
  import opened Prelude
  import opened Idempotency

  /** Which calls to the database fault, applied or not, and whether a lease has run out, by how many
      calls were made before. */
  datatype Environment = Environment(fault: nat -> Option<bool>, expired: nat -> bool)

  datatype ReserveOutcome =
    | OutcomeReserved
    | OutcomeReplay(response: Option<nat>, transactionId: Option<nat>)
    | OutcomeConflict
    | OutcomeInProgress

  lemma ExecOne(ls: seq<Label>, l: Label)
    ensures Exec(Empty, ls + [l]) == Apply(Exec(Empty, ls), l)
  {
    assert (ls + [l])[..|ls|] == ls;
  }

  /** Where the reservation leaves a call, given how its statements go from the n-th on. */
  function Found(env: Environment, n: nat, keys: map<string, KeyRow>, bound: map<string, nat>, key: string, fp: string): Sighting {
    if env.fault(n).Some? then Turned(Err)
    else if key !in keys then GoesOn(RunInner)
    else if env.fault(n + 1).Some? then Turned(Err)
    else if Seen(keys[key], fp, env.expired(n + 1)) != GoesOn(Lookup) then Seen(keys[key], fp, env.expired(n + 1))
    else if env.fault(n + 2).Some? then Turned(StillInProgress)
    else Reattached(bound, key)
  }

  /** How many statements that takes. */
  function Asks(env: Environment, n: nat, keys: map<string, KeyRow>, key: string, fp: string): nat {
    if env.fault(n).Some? || key !in keys then 1
    else if env.fault(n + 1).Some? || Seen(keys[key], fp, env.expired(n + 1)) != GoesOn(Lookup) then 2
    else 3
  }

  /** What a call that has not been left to run anything is answered in the end. */
  function FinalReply(env: Environment, n: nat, sight: Sighting): Reply {
    match sight
    case Turned(reply) => reply
    case GoesOn(ReadLive(id)) => if env.fault(n).None? then Ok(id) else Err
    case GoesOn(Decode(Some(id))) => Ok(id)
    case _ => Err
  }

  ghost predicate StepsOf(ls: seq<Label>, a: nat) { forall i :: 0 <= i < |ls| ==> ls[i].Step? && ls[i].call == a }

  /** Where the machine has the call that was given this outcome. */
  function Position(res: Option<ReserveOutcome>): Sighting {
    match res
    case Some(OutcomeReserved) => GoesOn(RunInner)
    case Some(OutcomeReplay(response, tx)) => GoesOn(if tx.Some? then ReadLive(tx.value) else Decode(response))
    case Some(OutcomeConflict) => Turned(Conflict)
    case Some(OutcomeInProgress) => Turned(StillInProgress)
    case None => Turned(Err)
  }

  class Service {
    const env: Environment
    var keys: map<string, KeyRow>
    var bound: map<string, nat>
    var nextTransfer: nat
    var clock: nat
    ghost var calls: map<nat, Call>
    ghost var nextCall: nat
    ghost var runs: seq<InnerRun>
    ghost var replies: seq<Answered>
    ghost var trail: seq<Label>

    ghost function State(): Sys
      reads this
    {
      Sys(keys, bound, nextTransfer, calls, nextCall, runs, replies)
    }

    /** The present state is where the trail of labels leads from an empty database. */
    ghost predicate Valid()
      reads this
    {
      State() == Exec(Empty, trail)
    }

    constructor (env: Environment)
      ensures Valid() && State() == Empty && this.env == env
    {
      this.env := env;
      keys, bound, nextTransfer, clock := map[], map[], 0, 0;
      calls, nextCall, runs, replies, trail := map[], 0, [], [], [];
    }

    lemma ValidHasInv()
      requires Valid()
      ensures Inv(State())
    {
      EmptyHasInv();
      RunOfLabels(Empty, trail);
    }

    /** Exactly one label has happened since. */
    twostate predicate Happened(l: Label)
      reads this
    {
      State() == Apply(old(State()), l) && trail == old(trail) + [l]
    }

    ghost method Note(l: Label, s: Sys)
      requires s == Exec(Empty, trail) && State() == Apply(s, l)
      modifies this`trail
      ensures Valid() && trail == old(trail) + [l]
    {
      ExecOne(trail, l);
      trail := trail + [l];
    }

    method Consult() returns (o: Outcome)
      modifies this`clock
      ensures Asked(o)
    {
      o := Outcome(env.fault(clock), env.expired(clock));
      clock := clock + 1;
    }

    /** The one call to the database that was made, and how it went. */
    twostate predicate Asked(o: Outcome)
      reads this
    {
      o == Outcome(env.fault(old(clock)), env.expired(old(clock))) && clock == old(clock) + 1
    }

    // -------------------------------------------------------------- the key store

    /** The call has gone on, or has been answered. */
    ghost predicate Stands(a: nat, key: string, fp: string, sight: Sighting, before: seq<Answered>)
      reads this
    {
      match sight
      case GoesOn(pc) => a in calls && calls[a] == Call(key, fp, pc) && replies == before
      case Turned(reply) => a !in calls && replies == before + [Answered(key, fp, reply)]
    }

    /** INSERT ... ON CONFLICT DO NOTHING; None is an error. */
    method InsertKey(ghost a: nat, key: string, fp: string) returns (inserted: Option<bool>, ghost o: Outcome)
      requires Valid() && a in calls && calls[a] == Call(key, fp, Reserve)
      modifies this
      ensures Valid() && Happened(Step(a, o)) && Asked(o)
      ensures inserted == if o.fault.Some? then None else Some(key !in old(keys))
      ensures bound == old(bound) && nextTransfer == old(nextTransfer) && runs == old(runs)
      ensures keys == if key in old(keys) || o.fault == Some(false) then old(keys)
                      else old(keys)[key := KeyRow(fp, InProgress, None, None)]
      ensures Stands(a, key, fp, if inserted.None? then Turned(Err) else GoesOn(if inserted.value then RunInner else Inspect),
                     old(replies))
    {
      hide StepInspect, StepLookup, StepRun, Complete, Exec;
      ghost var s := State();
      var out := Consult();
      o := out;
      inserted := if out.fault.Some? then None else Some(key !in keys);
      if key !in keys && Applied(out) { keys := keys[key := KeyRow(fp, InProgress, None, None)]; }
      calls, replies := Apply(s, Step(a, o)).calls, Apply(s, Step(a, o)).replies;
      Note(Step(a, o), s);
    }

    /** Reads the existing row and decides; past the lease, whether to look the transfer up. */
    method Examine(ghost a: nat, key: string, fp: string) returns (res: Option<ReserveOutcome>, lookup: bool,
          ghost o: Outcome)
      requires Valid() && a in calls && calls[a] == Call(key, fp, Inspect) && key in keys
      modifies this
      ensures Valid() && Happened(Step(a, o)) && Asked(o)
      ensures res.None? <==> o.fault.Some?
      ensures lookup ==> res.Some?
      ensures res.Some? ==> (if lookup then GoesOn(Lookup) else Position(res)) == Seen(keys[key], fp, o.expired)
      ensures keys == old(keys) && bound == old(bound) && nextTransfer == old(nextTransfer) && runs == old(runs)
      ensures Stands(a, key, fp, if lookup then GoesOn(Lookup) else Position(res), old(replies))
    {
      hide StepReserve, StepLookup, StepRun, Complete, Exec;
      ghost var s := State();
      var out := Consult();
      o := out;
      var row := keys[key];
      lookup := false;
      if out.fault.Some? {
        res := None;
      } else if row.fingerprint != fp {
        res := Some(OutcomeConflict);
      } else if row.status == Succeeded || row.status == Failed {
        res := Some(OutcomeReplay(row.response, row.transactionId));
      } else if !out.expired {
        res := Some(OutcomeInProgress);
      } else if row.transactionId.Some? {
        res := Some(OutcomeReplay(None, row.transactionId));
      } else {
        res, lookup := Some(OutcomeInProgress), true;
      }
      calls, replies := Apply(s, Step(a, o)).calls, Apply(s, Step(a, o)).replies;
      Note(Step(a, o), s);
    }

    /** The takeover lookup of the transfer that carries the key. */
    method FindTransfer(ghost a: nat, key: string, fp: string) returns (id: Option<nat>, ghost o: Outcome)
      requires Valid() && a in calls && calls[a] == Call(key, fp, Lookup)
      modifies this
      ensures Valid() && Happened(Step(a, o)) && Asked(o)
      ensures id == if o.fault.None? && key in bound then Some(bound[key]) else None
      ensures keys == old(keys) && bound == old(bound) && nextTransfer == old(nextTransfer) && runs == old(runs)
      ensures Stands(a, key, fp, if id.Some? then GoesOn(ReadLive(id.value)) else Turned(StillInProgress), old(replies))
    {
      ghost var s := State();
      var out := Consult();
      o := out;
      id := if out.fault.None? && key in bound then Some(bound[key]) else None;
      calls, replies := Apply(s, Step(a, o)).calls, Apply(s, Step(a, o)).replies;
      Note(Step(a, o), s);
    }

    /** Claims the key for the fingerprint and reports what it found. */
    method ReserveKey(ghost a: nat, key: string, fp: string) returns (res: Option<ReserveOutcome>, ghost ls: seq<Label>)
      requires Valid() && a in calls && calls[a] == Call(key, fp, Reserve)
      modifies this
      ensures Valid() && trail == old(trail) + ls && StepsOf(ls, a)
      ensures Stands(a, key, fp, Position(res), old(replies))
      ensures runs == old(runs) && bound == old(bound) && nextTransfer == old(nextTransfer)
      ensures keys == if key in old(keys) || env.fault(old(clock)) == Some(false) then old(keys)
                      else old(keys)[key := KeyRow(fp, InProgress, None, None)]
      ensures res == Some(OutcomeReserved) <==> env.fault(old(clock)).None? && key !in old(keys)
      ensures Position(res) == Found(env, old(clock), old(keys), bound, key, fp)
      ensures clock == old(clock) + Asks(env, old(clock), old(keys), key, fp)
    {
      hide Valid, Apply;
      var inserted, o1 := InsertKey(a, key, fp);
      ls := [Step(a, o1)];
      if inserted.None? { return None, ls; }
      if inserted.value { return Some(OutcomeReserved), ls; }
      var found, lookup, o2 := Examine(a, key, fp);
      ls := ls + [Step(a, o2)];
      if !lookup { return found, ls; }
      var id, o3 := FindTransfer(a, key, fp);
      ls := ls + [Step(a, o3)];
      res := Some(if id.Some? then OutcomeReplay(None, id) else OutcomeInProgress);
    }

    /** Records the outcome of an owned key. */
    method CompleteKey(ghost a: nat, key: string, status: KeyStatus, tx: Option<nat>) returns (ok: bool, ghost o: Outcome)
      requires Valid() && a in calls && calls[a].key == key
      requires || (status == Succeeded && tx.Some? && calls[a].pc == Bind(tx.value))
               || (status == Failed && tx.None? && calls[a].pc == Release)
      modifies this
      ensures Valid() && Happened(Step(a, o)) && Asked(o)
      ensures ok <==> o.fault.None?
      ensures bound == old(bound) && nextTransfer == old(nextTransfer) && runs == old(runs)
      ensures replies == old(replies) + [Answered(key, old(calls)[a].fingerprint, if ok && tx.Some? then Ok(tx.value) else Err)]
      ensures keys == if key !in old(keys) || o.fault == Some(false) then old(keys)
                      else old(keys)[key := KeyRow(old(keys)[key].fingerprint, status, tx, tx)]
    {
      hide StepReserve, StepInspect, StepLookup, StepRun, Exec;
      ghost var s := State();
      var out := Consult();
      o := out;
      if Applied(out) && key in keys {
        keys := keys[key := keys[key].(status := status, response := tx, transactionId := tx)];
      }
      calls, replies := Apply(s, Step(a, o)).calls, Apply(s, Step(a, o)).replies;
      ok := out.fault.None?;
      Note(Step(a, o), s);
    }

    // -------------------------------------------------------------- the inner service

    /** Creates the transfer that carries the key; an error may follow the commit. */
    method InnerCreate(ghost a: nat, key: string, fp: string) returns (id: Option<nat>, ghost o: Outcome)
      requires Valid() && a in calls && calls[a] == Call(key, fp, RunInner)
      modifies this
      ensures Valid() && Happened(Step(a, o)) && Asked(o)
      ensures id == if o.fault.None? && key !in old(bound) then Some(old(nextTransfer)) else None
      ensures keys == old(keys) && replies == old(replies) && runs == old(runs) + [InnerRun(key, fp)]
      ensures bound == if key in old(bound) || o.fault == Some(false) then old(bound) else old(bound)[key := old(nextTransfer)]
      ensures nextTransfer == if key in old(bound) || o.fault == Some(false) then old(nextTransfer) else old(nextTransfer) + 1
      ensures a in calls && calls[a] == Call(key, fp, if id.Some? then Bind(id.value) else Release)
    {
      hide StepReserve, StepInspect, StepLookup, Complete, Answer, Exec;
      ghost var s := State();
      var out := Consult();
      o := out;
      id := None;
      if Applied(out) && key !in bound {
        if out.fault.None? { id := Some(nextTransfer); }
        bound, nextTransfer := bound[key := nextTransfer], nextTransfer + 1;
      }
      ghost var s' := Apply(s, Step(a, o));
      calls, replies, runs := s'.calls, s'.replies, s'.runs;
      Note(Step(a, o), s);
    }

    /** The live view of a transfer. */
    method InnerGet(ghost a: nat, id: nat) returns (reply: Reply, ghost o: Outcome)
      requires Valid() && a in calls && calls[a].pc == ReadLive(id)
      modifies this
      ensures Valid() && Happened(Step(a, o)) && Asked(o)
      ensures reply == if o.fault.None? then Ok(id) else Err
      ensures keys == old(keys) && bound == old(bound) && nextTransfer == old(nextTransfer) && runs == old(runs)
      ensures replies == old(replies) + [Answered(old(calls)[a].key, old(calls)[a].fingerprint, reply)]
    {
      ghost var s := State();
      var out := Consult();
      o := out;
      calls, replies := Apply(s, Step(a, o)).calls, Apply(s, Step(a, o)).replies;
      reply := if out.fault.None? then Ok(id) else Err;
      Note(Step(a, o), s);
    }

    /** Decoding a response that was never stored is an error. */
    method DecodeStored(ghost a: nat, response: Option<nat>) returns (reply: Reply, ghost o: Outcome)
      requires Valid() && a in calls && calls[a].pc == Decode(response)
      modifies this
      ensures Valid() && Happened(Step(a, o)) && clock == old(clock)
      ensures reply == if response.Some? then Ok(response.value) else Err
      ensures keys == old(keys) && bound == old(bound) && nextTransfer == old(nextTransfer) && runs == old(runs)
      ensures replies == old(replies) + [Answered(old(calls)[a].key, old(calls)[a].fingerprint, reply)]
    {
      ghost var s := State();
      o := Outcome(None, false);
      calls, replies := Apply(s, Step(a, o)).calls, Apply(s, Step(a, o)).replies;
      reply := if response.Some? then Ok(response.value) else Err;
      Note(Step(a, o), s);
    }

    // -------------------------------------------------------------- Create

    /** One whole call. It is steps of one activation; the inner service runs only for a key nobody had
        reserved; and every reply and every row is the one its statements, faults and all, lead to. */
    method Create(key: string, fp: string, valid: bool) returns (reply: Reply, ghost ls: seq<Label>)
      requires Valid()
      modifies this
      ensures Valid()
      ensures !valid ==> reply == Err && State() == old(State())
      ensures valid ==>
                && trail == old(trail) + [Arrive(key, fp)] + ls && StepsOf(ls, old(nextCall))
                && replies == old(replies) + [Answered(key, fp, reply)]
      ensures key in old(keys) ==>
                keys == old(keys) && bound == old(bound) && nextTransfer == old(nextTransfer) && runs == old(runs)
      ensures valid && key in old(keys) ==>
                var row, n := old(keys)[key], old(clock);
                && (row.status == Succeeded ==> key in old(bound))
                && reply ==
                   if env.fault(n).Some? || env.fault(n + 1).Some? then Err
                   else if row.fingerprint != fp then Conflict
                   else match row.status
                     case Failed => Err
                     case Succeeded => if env.fault(n + 2).None? then Ok(old(bound)[key]) else Err
                     case InProgress =>
                       if !env.expired(n + 1) || env.fault(n + 2).Some? || key !in old(bound) then StillInProgress
                       else if env.fault(n + 3).None? then Ok(old(bound)[key]) else Err
      ensures valid && key !in old(keys) && env.fault(old(clock)).Some? ==>
                && reply == Err && bound == old(bound) && nextTransfer == old(nextTransfer) && runs == old(runs)
                && keys == if env.fault(old(clock)) == Some(false) then old(keys)
                           else old(keys)[key := KeyRow(fp, InProgress, None, None)]
      ensures valid && key !in old(keys) && env.fault(old(clock)).None? ==>
                var made, recorded, id := env.fault(old(clock) + 1), env.fault(old(clock) + 2), old(nextTransfer);
                && reply == (if made.None? && recorded.None? then Ok(id) else Err)
                && runs == old(runs) + [InnerRun(key, fp)]
                && bound == (if made == Some(false) then old(bound) else old(bound)[key := id])
                && keys == old(keys)[key := if recorded == Some(false) then KeyRow(fp, InProgress, None, None)
                                            else if made.None? then KeyRow(fp, Succeeded, Some(id), Some(id))
                                            else KeyRow(fp, Failed, None, None)]
    {
      hide Valid, Apply, Found, FinalReply, Stands, Exec, Asks;
      ls := [];
      if !valid { return Err, []; }
      UnreservedIsUnbound();
      if key in keys { TakenKeyReply(key, fp, clock); } else { FreeKeyReply(key, fp, clock); }
      ghost var a := Admit(key, fp);
      var res, before := ReserveKey(a, key, fp);
      var r, more := Proceed(a, key, fp, res, old(replies));
      reply, ls := r, before + more;
    }

    /** What remains once Reserve has returned. */
    method Proceed(ghost a: nat, key: string, fp: string, res: Option<ReserveOutcome>, ghost before: seq<Answered>)
        returns (reply: Reply, ghost ls: seq<Label>)
      requires Valid() && Stands(a, key, fp, Position(res), before)
      requires res == Some(OutcomeReserved) ==> key in keys && keys[key] == KeyRow(fp, InProgress, None, None) && key !in bound
      modifies this
      ensures Valid() && trail == old(trail) + ls && StepsOf(ls, a)
      ensures replies == before + [Answered(key, fp, reply)]
      ensures res != Some(OutcomeReserved) ==>
                && keys == old(keys) && bound == old(bound) && nextTransfer == old(nextTransfer) && runs == old(runs)
                && reply == FinalReply(env, old(clock), Position(res))
      ensures res == Some(OutcomeReserved) ==> RanAndRecorded(key, fp, reply)
    {
      hide Valid, Apply, Exec, RanAndRecorded;
      if res.None? { return Err, []; }
      match res.value {
        case OutcomeConflict => reply, ls := Conflict, [];
        case OutcomeInProgress => reply, ls := StillInProgress, [];
        case OutcomeReplay(response, tx) =>
          if tx.Some? {
            var r, o := InnerGet(a, tx.value);
            reply, ls := r, [Step(a, o)];
          } else {
            var r, o := DecodeStored(a, response);
            reply, ls := r, [Step(a, o)];
          }
        case OutcomeReserved => reply, ls := RunOwned(a, key, fp);
      }
    }

    /** The reply a taken key calls for, in a state a run can reach. */
    lemma TakenKeyReply(key: string, fp: string, n: nat)
      requires Valid() && key in keys
      ensures var row, sight := keys[key], Found(env, n, keys, bound, key, fp);
              && sight != GoesOn(RunInner)
              && (row.status == Succeeded ==> key in bound)
              && FinalReply(env, n + Asks(env, n, keys, key, fp), sight) ==
                 if env.fault(n).Some? || env.fault(n + 1).Some? then Err
                 else if row.fingerprint != fp then Conflict
                 else match row.status
                   case Failed => Err
                   case Succeeded => if env.fault(n + 2).None? then Ok(bound[key]) else Err
                   case InProgress =>
                     if !env.expired(n + 1) || env.fault(n + 2).Some? || key !in bound then StillInProgress
                     else if env.fault(n + 3).None? then Ok(bound[key]) else Err
    {
      ValidHasInv();
      assert RowOk(State(), key);
    }

    lemma FreeKeyReply(key: string, fp: string, n: nat)
      requires key !in keys
      ensures Asks(env, n, keys, key, fp) == 1
      ensures var sight := Found(env, n, keys, bound, key, fp);
              && (env.fault(n).None? ==> sight == GoesOn(RunInner))
              && (env.fault(n).Some? ==> FinalReply(env, n + 1, sight) == Err)
    {
    }

    lemma UnreservedIsUnbound()
      requires Valid()
      ensures forall k :: k in bound ==> k in keys
    {
      ValidHasInv();
      forall k | k in bound ensures k in keys { assert Ran(State(), k); }
    }

    ghost method Admit(key: string, fp: string) returns (a: nat)
      requires Valid()
      modifies this`calls, this`nextCall, this`trail
      ensures Valid() && trail == old(trail) + [Arrive(key, fp)]
      ensures a == old(nextCall) && a in calls && calls[a] == Call(key, fp, Reserve)
    {
      var s := State();
      a := nextCall;
      calls, nextCall := calls[nextCall := Call(key, fp, Reserve)], nextCall + 1;
      Note(Arrive(key, fp), s);
    }

    /** The inner service has run, and what it made of it is recorded, as far as the two statements came. */
    twostate predicate RanAndRecorded(key: string, fp: string, reply: Reply)
      reads this
    {
      var made, recorded, id := env.fault(old(clock)), env.fault(old(clock) + 1), old(nextTransfer);
      && reply == (if made.None? && recorded.None? then Ok(id) else Err)
      && runs == old(runs) + [InnerRun(key, fp)]
      && bound == (if made == Some(false) then old(bound) else old(bound)[key := id])
      && keys == old(keys)[key := if recorded == Some(false) then KeyRow(fp, InProgress, None, None)
                                  else if made.None? then KeyRow(fp, Succeeded, Some(id), Some(id))
                                  else KeyRow(fp, Failed, None, None)]
    }

    /** The owner's part: create, then record the result, or release the key as failed. */
    method RunOwned(ghost a: nat, key: string, fp: string) returns (reply: Reply, ghost ls: seq<Label>)
      requires Valid() && a in calls && calls[a] == Call(key, fp, RunInner) && key !in bound
      requires key in keys && keys[key] == KeyRow(fp, InProgress, None, None)
      modifies this
      ensures Valid() && trail == old(trail) + ls && StepsOf(ls, a)
      ensures replies == old(replies) + [Answered(key, fp, reply)]
      ensures RanAndRecorded(key, fp, reply)
    {
      hide Valid, Apply;
      var id, o1 := InnerCreate(a, key, fp);
      if id.None? {
        var _, o2 := CompleteKey(a, key, Failed, None);
        return Err, [Step(a, o1), Step(a, o2)];
      }
      var ok, o2 := CompleteKey(a, key, Succeeded, id);
      reply, ls := if ok then Ok(id.value) else Err, [Step(a, o1), Step(a, o2)];
    }
  }
}
