/** The workflow status of an order, moved forward by events that may repeat and come out of order. */
module OrderStatus {

  datatype Status =
    | Created
    | PaymentAuthorized
    | InventoryReserved
    | InventoryReservationFailed
    | DeliveryBooked

  /** The statuses that an event sets. */
  type EventType = status: Status | !status.Created? witness PaymentAuthorized

  datatype OrderOutcome = InProgress | Completed | Failed

  function Stage(status: Status): nat {
    match status
    case Created => 0
    case PaymentAuthorized => 1
    case InventoryReserved => 2
    case InventoryReservationFailed => 2
    case DeliveryBooked => 3
  }

  function ApplyWorkflowEvent(current: Status, event: EventType): Status {
    if current.InventoryReservationFailed? || Stage(event) <= Stage(current) then current else event
  }

  function GetOrderOutcome(status: Status): OrderOutcome {
    match status
    case DeliveryBooked => Completed
    case InventoryReservationFailed => Failed
    case _ => InProgress
  }

  function After(current: Status, events: seq<EventType>): Status {
    if events == [] then current
    else ApplyWorkflowEvent(After(current, events[..|events| - 1]), events[|events| - 1])
  }

  /** The status only moves forward, and a finished order stays finished. */
  lemma {:induction false} StatusMovesForward(current: Status, events: seq<EventType>)
    ensures Stage(After(current, events)) >= Stage(current)
    ensures !GetOrderOutcome(current).InProgress? ==> After(current, events) == current
    ensures After(current, events) == current || After(current, events) in events
  {
    if events != [] {
      var earlier := events[..|events| - 1];
      StatusMovesForward(current, earlier);
      assert events == earlier + [events[|events| - 1]];
    }
  }

  /** A failed reservation together with an event that only a successful one leads to. */
  predicate Mixed(events: seq<EventType>) {
    InventoryReservationFailed in events && (InventoryReserved in events || DeliveryBooked in events)
  }

  /** The event of the highest stage, if any. */
  function Highest(events: seq<EventType>): Status {
    if DeliveryBooked in events then DeliveryBooked
    else if InventoryReserved in events then InventoryReserved
    else if InventoryReservationFailed in events then InventoryReservationFailed
    else if PaymentAuthorized in events then PaymentAuthorized
    else Created
  }

  lemma HighestHasHighestStage(events: seq<EventType>)
    ensures forall e :: e in events ==> Stage(e) <= Stage(Highest(events))
    ensures events != [] ==> Highest(events) in events
  {
    if events != [] {
      var e := events[0];
      assert e in events;
    }
  }

  lemma {:induction false} UnmixedFold(events: seq<EventType>)
    requires !Mixed(events)
    ensures After(Created, events) == Highest(events)
  {
    if events != [] {
      var earlier, last := events[..|events| - 1], events[|events| - 1];
      assert events == earlier + [last];
      assert forall e :: e in events <==> e in earlier || e == last;
      UnmixedFold(earlier);
    }
  }

  /** Unmixed events end at one of them that no other is further than, however they are ordered and repeated. */
  lemma {:induction false} UnmixedEndsHighest(events: seq<EventType>)
    requires !Mixed(events)
    ensures After(Created, events) == Highest(events)
    ensures forall e :: e in events ==> Stage(e) <= Stage(After(Created, events))
    ensures if events == [] then After(Created, events) == Created else After(Created, events) in events
  {
    UnmixedFold(events);
    HighestHasHighestStage(events);
  }

  ghost predicate Confluent(events: seq<EventType>) {
    forall other: seq<EventType> :: multiset(other) == multiset(events) ==>
                                      After(Created, other) == After(Created, events)
  }

  /** The final status does not depend on the order of the events exactly when they are not mixed. */
  lemma ConfluentIff(events: seq<EventType>)
    ensures Confluent(events) <==> !Mixed(events)
    ensures !Mixed(events) ==> After(Created, events) == Highest(events)
  {
    if !Mixed(events) {
      UnmixedEndsHighest(events);
      forall other: seq<EventType> | multiset(other) == multiset(events)
        ensures After(Created, other) == After(Created, events)
      {
        SameMembers(other, events);
        UnmixedEndsHighest(other);
      }
    } else {
      var success: EventType := if InventoryReserved in events then InventoryReserved else DeliveryBooked;
      var failedFirst := MovedToFront(events, InventoryReservationFailed);
      var successFirst := MovedToFront(events, success);
      FirstDecides(failedFirst);
      FirstDecides(successFirst);
      assert After(Created, failedFirst) != After(Created, successFirst);
    }
  }

  lemma SameMembers(left: seq<EventType>, right: seq<EventType>)
    requires multiset(left) == multiset(right)
    ensures forall e :: e in left <==> e in right
  {
    forall e
      ensures e in left <==> e in right
    {
      assert e in left <==> e in multiset(left);
      assert e in right <==> e in multiset(right);
    }
  }

  lemma MovedToFront(events: seq<EventType>, first: EventType) returns (moved: seq<EventType>)
    requires first in events
    ensures multiset(moved) == multiset(events) && moved != [] && moved[0] == first
  {
    var i :| 0 <= i < |events| && events[i] == first;
    moved := [first] + events[..i] + events[i + 1..];
    assert events == events[..i] + [first] + events[i + 1..];
  }

  /** Of a failed reservation and its opposites, whichever is recorded first is kept. */
  lemma {:induction false} FirstDecides(events: seq<EventType>)
    requires events != [] && Stage(events[0]) >= 2
    ensures After(Created, events).InventoryReservationFailed? <==> events[0].InventoryReservationFailed?
    ensures Stage(After(Created, events)) >= 2
  {
    if |events| == 1 {
      assert events[..0] == [];
      assert After(Created, events) == ApplyWorkflowEvent(Created, events[0]);
    } else {
      FirstDecides(events[..|events| - 1]);
    }
  }
}
