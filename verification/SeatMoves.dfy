/** What the seat tables do to a registration's status is what ReservationProtocol
    expects of everything outside it. */
module SeatMoves {
  import opened Common
  import opened SeatTables
  import opened SeatInvariants
  import Protocol = ReservationProtocol

  function InProtocol(status: Status): Protocol.Status {
    match status
    case PENDING => Protocol.PENDING
    case PAYMENT_PENDING => Protocol.PAYMENT_PENDING
    case CONFIRMED => Protocol.CONFIRMED
    case ATTENDED => Protocol.ATTENDED
    case NO_SHOW => Protocol.NO_SHOW
    case CANCELLED => Protocol.CANCELLED
    case REFUNDED => Protocol.REFUNDED
  }

  /** In every run each step (sweep, webhook, order, attendance, cancellation, deletion,
      acceptance) leaves a seat's status alone or moves it as the protocol allows for; the
      one further move, on to the payment, is the protocol's own order step. So no step
      but a reservation brings a cancelled seat back, and the protocol's bounds hold
      whatever the tables do. */
  lemma MovesAreForeseen(states: seq<State>, actions: seq<Action>, n: nat, id: RowId)
    requires IsRun(states, actions) && n < |actions| && id in states[n].registrations
    ensures id in states[n + 1].registrations
    ensures var from, to := states[n].registrations[id].status, states[n + 1].registrations[id].status;
            to == from || Protocol.OutsideMove(InProtocol(from), InProtocol(to))
            || (actions[n].AttachOrder? && from == PENDING && to == PAYMENT_PENDING)
  {
    RunKeepsSeats(states, actions, n);
    assert states[n + 1] == Apply(states[n], actions[n]);
    StatusStep(states[n], actions[n], id);
  }
}
