/** The support-ticket machine (lib/actions/support.ts). Every action locks the
    ticket row first, so each is one atomic step. */
module Tickets {
  import opened Common

  type UserId = string

  datatype Status = NEW | ASSIGNED | IN_PROGRESS | WAITING | RESOLVED | CLOSED

  datatype Ticket = Ticket(createdBy: UserId, status: Status, assignedTo: Option<UserId>, resolutionNotes: Option<string>)

  datatype TicketError = Forbidden | ConversationClosed | InvalidTransition | NoteRequired

  /** The table of legal changes. */
  function AllowedTransitions(from: Status): set<Status> {
    match from
    case NEW => {ASSIGNED}
    case ASSIGNED => {IN_PROGRESS, WAITING}
    case IN_PROGRESS => {WAITING, RESOLVED}
    case WAITING => {IN_PROGRESS, RESOLVED}
    case RESOLVED => {IN_PROGRESS, CLOSED}
    case CLOSED => {}
  }

  function StatusAfterStaffReply(current: Status, next: Status): Result<Status, TicketError>
    requires next == WAITING || next == IN_PROGRESS
  {
    match current
    case CLOSED => Failure(ConversationClosed)
    case RESOLVED => Success(RESOLVED)
    case _ => Success(next)
  }

  function StatusAfterRequesterReply(current: Status): Result<Status, TicketError> {
    match current
    case CLOSED => Failure(ConversationClosed)
    case WAITING => Success(IN_PROGRESS)
    case RESOLVED => Success(IN_PROGRESS)
    case _ => Success(current)
  }

  // ---------------------------------------------------------------------------
  // Actions
  // ---------------------------------------------------------------------------

  /** `nextStatus` is the status a staff reply may ask for. */
  datatype Action =
    | SendMessage(sender: UserId, isStaff: bool, nextStatus: Option<Status>)
    | AssignTicket(staff: UserId)
    | UpdateStatus(staff: UserId, status: Status, note: string)

  predicate WellTyped(a: Action) {
    a.SendMessage? && a.nextStatus.Some? ==> a.nextStatus.value == WAITING || a.nextStatus.value == IN_PROGRESS
  }

  /** What an action makes of a ticket. */
  function Outcome(t: Ticket, a: Action): Result<Ticket, TicketError>
    requires WellTyped(a)
  {
    match a
    case SendMessage(sender, isStaff, nextStatus) =>
      if sender != t.createdBy && !isStaff then Failure(Forbidden)
      else if sender == t.createdBy then
        if nextStatus.Some? then Failure(Forbidden)
        else
          var status := StatusAfterRequesterReply(t.status);
          if status.Failure? then Failure(status.error)
          else if t.status == RESOLVED then Success(t.(status := status.value, resolutionNotes := None))
          else Success(t.(status := status.value))
      else
        var status := StatusAfterStaffReply(t.status, if nextStatus.Some? then nextStatus.value else WAITING);
        if status.Failure? then Failure(status.error)
        else if t.status == NEW && t.assignedTo == None then Success(t.(status := status.value, assignedTo := Some(sender)))
        else Success(t.(status := status.value))
    case AssignTicket(staff) =>
      if t.status == RESOLVED || t.status == CLOSED then Failure(InvalidTransition)
      else Success(t.(assignedTo := Some(staff), status := if t.status == NEW then ASSIGNED else t.status))
    case UpdateStatus(staff, status, note) =>
      if status == ASSIGNED || status !in AllowedTransitions(t.status) then Failure(InvalidTransition)
      else if status == RESOLVED && note == "" then Failure(NoteRequired)
      else
        var owned := if t.assignedTo == None && status != CLOSED then t.(assignedTo := Some(staff)) else t;
        if status == RESOLVED then Success(owned.(status := status, resolutionNotes := Some(note)))
        else if t.status == RESOLVED && status == IN_PROGRESS then Success(owned.(status := status, resolutionNotes := None))
        else Success(owned.(status := status))
  }

  /** A ticket row, updated column by column. */
  class TicketRow {
    const createdBy: UserId
    var status: Status
    var assignedTo: Option<UserId>
    var resolutionNotes: Option<string>

    ghost function Model(): Ticket
      reads this
    {
      Ticket(createdBy, status, assignedTo, resolutionNotes)
    }

    constructor (createdBy: UserId)
      ensures Model() == Ticket(createdBy, NEW, None, None)
    {
      this.createdBy := createdBy;
      status, assignedTo, resolutionNotes := NEW, None, None;
    }

    method SendMessage(sender: UserId, isStaff: bool, nextStatus: Option<Status>) returns (error: Option<TicketError>)
      requires WellTyped(Action.SendMessage(sender, isStaff, nextStatus))
      modifies this
      ensures Applied(old(Model()), Action.SendMessage(sender, isStaff, nextStatus), Model(), error)
      ensures error == None <==> old(status) != CLOSED && (if sender == createdBy then nextStatus == None else isStaff)
      ensures error == None && sender == createdBy ==>
                status == (if old(status) == WAITING || old(status) == RESOLVED then IN_PROGRESS else old(status))
                && assignedTo == old(assignedTo)
                && resolutionNotes == if old(status) == RESOLVED then None else old(resolutionNotes)
      ensures error == None && sender != createdBy ==>
                status == (if old(status) == RESOLVED then RESOLVED else if nextStatus.Some? then nextStatus.value else WAITING)
                && assignedTo == (if old(status) == NEW && old(assignedTo) == None then Some(sender) else old(assignedTo))
                && resolutionNotes == old(resolutionNotes)
    {
      if sender != createdBy && !isStaff {
        return Some(Forbidden);
      }
      var isStaffReply := sender != createdBy;
      if nextStatus.Some? && !isStaffReply {
        return Some(Forbidden);
      }
      var next := if isStaffReply
        then StatusAfterStaffReply(status, if nextStatus.Some? then nextStatus.value else WAITING)
        else StatusAfterRequesterReply(status);
      if next.Failure? {
        return Some(next.error);
      }
      var claim := isStaffReply && status == NEW && assignedTo == None;
      var reopened := status == RESOLVED && next.value == IN_PROGRESS;
      status := next.value;
      if claim {
        assignedTo := Some(sender);
      }
      if reopened {
        resolutionNotes := None;
      }
      error := None;
    }

    method AssignTicket(staff: UserId) returns (error: Option<TicketError>)
      modifies this
      ensures Applied(old(Model()), Action.AssignTicket(staff), Model(), error)
      ensures error == None <==> old(status) in {NEW, ASSIGNED, IN_PROGRESS, WAITING}
      ensures error == None ==>
                assignedTo == Some(staff) && status == (if old(status) == NEW then ASSIGNED else old(status))
                && resolutionNotes == old(resolutionNotes)
    {
      if status == RESOLVED || status == CLOSED {
        return Some(InvalidTransition);
      }
      if assignedTo != Some(staff) || status == NEW {
        assignedTo := Some(staff);
        status := if status == NEW then ASSIGNED else status;
      }
      error := None;
    }

    method UpdateTicketStatus(staff: UserId, to: Status, note: string) returns (error: Option<TicketError>)
      modifies this
      ensures Applied(old(Model()), Action.UpdateStatus(staff, to, note), Model(), error)
      ensures error == None <==>
                (to == RESOLVED ==> note != "")
                && (old(status), to) in {(ASSIGNED, IN_PROGRESS), (ASSIGNED, WAITING), (IN_PROGRESS, WAITING),
                                         (IN_PROGRESS, RESOLVED), (WAITING, IN_PROGRESS), (WAITING, RESOLVED),
                                         (RESOLVED, IN_PROGRESS), (RESOLVED, CLOSED)}
      ensures error == None ==>
                status == to
                && assignedTo == (if old(assignedTo) == None && to != CLOSED then Some(staff) else old(assignedTo))
                && resolutionNotes == if to == RESOLVED then Some(note)
                                      else if old(status) == RESOLVED && to == IN_PROGRESS then None
                                      else old(resolutionNotes)
    {
      if to == ASSIGNED || to !in AllowedTransitions(status) {
        return Some(InvalidTransition);
      }
      if to == RESOLVED && note == "" {
        return Some(NoteRequired);
      }
      var reopened := status == RESOLVED && to == IN_PROGRESS;
      status := to;
      if to == RESOLVED {
        resolutionNotes := Some(note);
      }
      if reopened {
        resolutionNotes := None;
      }
      if assignedTo == None && to != CLOSED {
        assignedTo := Some(staff);
      }
      error := None;
    }
  }

  ghost predicate Applied(before: Ticket, a: Action, after: Ticket, error: Option<TicketError>)
    requires WellTyped(a)
  {
    match Outcome(before, a)
    case Success(t) => after == t && error == None
    case Failure(e) => after == before && error == Some(e)
  }

  // ---------------------------------------------------------------------------
  // Whole lives of a ticket
  // ---------------------------------------------------------------------------

  /** The states of a ticket from its filing on; refused actions change nothing. */
  ghost predicate IsLife(tickets: seq<Ticket>, actions: seq<Action>) {
    |tickets| == |actions| + 1
    && tickets[0].status == NEW && tickets[0].assignedTo == None && tickets[0].resolutionNotes == None
    && forall i :: 0 <= i < |actions| ==>
         WellTyped(actions[i])
         && tickets[i + 1] == (if Outcome(tickets[i], actions[i]).Success? then Outcome(tickets[i], actions[i]).value
                               else tickets[i])
  }

  /** A path in the transition table, with every hop listed. */
  ghost predicate IsPath(path: seq<Status>) {
    path != [] && forall i :: 0 < i < |path| ==> path[i] in AllowedTransitions(path[i - 1])
  }

  ghost predicate Reaches(from: Status, to: Status) {
    exists path :: IsPath(path) && path[0] == from && path[|path| - 1] == to
  }

  ghost predicate Consistent(t: Ticket) {
    (t.assignedTo == None <==> t.status == NEW)
    && (t.resolutionNotes.Some? <==> t.status == RESOLVED || t.status == CLOSED)
  }

  lemma ActionKeeps(t: Ticket, a: Action)
    requires WellTyped(a) && Consistent(t) && Outcome(t, a).Success?
    ensures Consistent(Outcome(t, a).value) && Reaches(t.status, Outcome(t, a).value.status)
  {
    var to := Outcome(t, a).value.status;
    if to == t.status {
      assert IsPath([to]) && [to][0] == t.status;
    } else if to in AllowedTransitions(t.status) {
      assert IsPath([t.status, to]) && [t.status, to][1] == to;
    } else {
      // only a staff reply to a NEW ticket takes two hops: it assigns on the way
      assert t.status == NEW && to in AllowedTransitions(ASSIGNED);
      assert IsPath([NEW, ASSIGNED, to]) && [NEW, ASSIGNED, to][2] == to;
    }
  }

  /** Over its whole life a ticket is unassigned exactly while NEW, has a resolution
      note exactly while RESOLVED or CLOSED, and changes status only along paths of
      the transition table. */
  lemma {:induction false} LifeIsConsistent(tickets: seq<Ticket>, actions: seq<Action>, n: nat)
    requires IsLife(tickets, actions) && n < |tickets|
    ensures Consistent(tickets[n])
    ensures n > 0 ==> Reaches(tickets[n - 1].status, tickets[n].status)
    decreases n
  {
    if n > 0 {
      LifeIsConsistent(tickets, actions, n - 1);
      var t, a := tickets[n - 1], actions[n - 1];
      assert tickets[n - 1 + 1] == (if Outcome(t, a).Success? then Outcome(t, a).value else t);
      if Outcome(t, a).Success? {
        ActionKeeps(t, a);
      } else {
        assert IsPath([t.status]) && [t.status][0] == t.status;
      }
    }
  }

  /** CLOSED is terminal: nothing succeeds on a closed ticket, so it never changes. */
  lemma {:induction false} ClosedIsForever(tickets: seq<Ticket>, actions: seq<Action>, i: nat, j: nat)
    requires IsLife(tickets, actions) && i <= j < |tickets| && tickets[i].status == CLOSED
    ensures tickets[j] == tickets[i]
    decreases j - i
  {
    if i < j {
      ClosedIsForever(tickets, actions, i, j - 1);
      assert Outcome(tickets[j - 1], actions[j - 1]).Failure?;
      assert tickets[j - 1 + 1] == tickets[j - 1];
    }
  }

  /** A ticket once owned never goes back to being unowned. */
  lemma {:induction false} OwnedStaysOwned(tickets: seq<Ticket>, actions: seq<Action>, i: nat, j: nat)
    requires IsLife(tickets, actions) && i <= j < |tickets| && tickets[i].assignedTo.Some?
    ensures tickets[j].assignedTo.Some? && tickets[j].status != NEW
    decreases j - i
  {
    LifeIsConsistent(tickets, actions, j);
    if i < j {
      OwnedStaysOwned(tickets, actions, i, j - 1);
      assert tickets[j - 1 + 1].assignedTo.Some?;
    }
  }
}
