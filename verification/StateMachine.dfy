/** The coarse transfer statuses, their legal edges, and the event that drives each of them. */
module StateMachine {
  import opened Prelude

  datatype Status = Pending | Debited | InDoubt | ReversalPending | Settled | Reversed | ManualReview | Failed

  datatype EventKind = DebitRequested | DebitedEvent | InDoubtEvent | ReversalRequested

  const Transitions: map<Status, seq<Status>> := map[
    Pending := [Debited, Failed],
    Debited := [Settled, InDoubt, ReversalPending],
    InDoubt := [Settled, ReversalPending, ManualReview],
    ReversalPending := [Reversed]
  ]

  function Edges(from: Status): seq<Status> { if from in Transitions then Transitions[from] else [] }

  predicate CanTransition(from: Status, to: Status) { to in Edges(from) }

  predicate IsTerminal(st: Status) { |Edges(st)| == 0 }

  function EventForStatus(st: Status): Option<EventKind> {
    match st
    case Pending => Some(DebitRequested)
    case Debited => Some(DebitedEvent)
    case InDoubt => Some(InDoubtEvent)
    case ReversalPending => Some(ReversalRequested)
    case _ => None
  }

  /** The status in which a handler for this kind of event has work to do. */
  function Driving(kind: EventKind): Status {
    match kind
    case DebitRequested => Pending
    case DebitedEvent => Debited
    case InDoubtEvent => InDoubt
    case ReversalRequested => ReversalPending
  }

  /** Length of the longest path still ahead. */
  function Rank(st: Status): nat {
    match st
    case Pending => 4
    case Debited => 3
    case InDoubt => 2
    case ReversalPending => 1
    case _ => 0
  }

  /** Reachability along the edges. */
  predicate Reaches(a: Status, b: Status) {
    || a == b
    || match a
       case Pending => true
       case Debited => b != Pending && b != Failed
       case InDoubt => b == Settled || b == ReversalPending || b == Reversed || b == ManualReview
       case ReversalPending => b == Reversed
       case _ => false
  }

  /** The table as a relation. */
  lemma EdgeTable(a: Status, b: Status)
    ensures CanTransition(a, b) <==>
      match a
      case Pending => b == Debited || b == Failed
      case Debited => b == Settled || b == InDoubt || b == ReversalPending
      case InDoubt => b == Settled || b == ReversalPending || b == ManualReview
      case ReversalPending => b == Reversed
      case _ => false
  {
    assert Transitions[Pending] == [Debited, Failed];
    assert Transitions[Debited] == [Settled, InDoubt, ReversalPending];
    assert Transitions[InDoubt] == [Settled, ReversalPending, ManualReview];
    assert Transitions[ReversalPending] == [Reversed];
  }

  lemma TerminalTable(a: Status)
    ensures IsTerminal(a) <==> a == Settled || a == Reversed || a == ManualReview || a == Failed
    ensures IsTerminal(a) <==> EventForStatus(a).None?
  {
    assert Transitions[Pending] == [Debited, Failed];
    assert Transitions[Debited] == [Settled, InDoubt, ReversalPending];
    assert Transitions[InDoubt] == [Settled, ReversalPending, ManualReview];
    assert Transitions[ReversalPending] == [Reversed];
  }

  /** Reaches is the least preorder containing the edges, and every edge lowers the rank: no status
      that has been left is ever entered again. */
  lemma ReachesIsClosure(a: Status, b: Status, c: Status)
    ensures CanTransition(a, b) ==> Reaches(a, b) && Rank(b) < Rank(a)
    ensures Reaches(a, b) && Reaches(b, c) ==> Reaches(a, c)
    ensures Reaches(a, b) && a != b ==> !Reaches(b, a) && exists m :: CanTransition(a, m) && Reaches(m, b)
  {
    EdgeTable(a, b);
    if Reaches(a, b) && a != b {
      EdgeTable(a, Debited); EdgeTable(a, Failed); EdgeTable(a, InDoubt); EdgeTable(a, ReversalPending);
      var m := if CanTransition(a, b) then b else if a == Pending then Debited
               else if b == ManualReview then InDoubt else ReversalPending;
      EdgeTable(a, m);
      assert CanTransition(a, m) && Reaches(m, b);
    }
  }

  lemma DrivingInverts(kind: EventKind, st: Status)
    ensures EventForStatus(Driving(kind)) == Some(kind)
    ensures EventForStatus(st) == Some(kind) <==> st == Driving(kind)
  {
  }
}
