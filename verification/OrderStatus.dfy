/** The order status graph shared by customers, staff, payments and the scheduler. */
module OrderStatuses {
  import opened Wrappers

  datatype OrderStatus = Created | Confirmed | InProgress | Completed | Cancelled | Refunded | Failed

  const TRANSITIONS: map<OrderStatus, set<OrderStatus>> := map[
    Created := {Confirmed, Cancelled},
    Confirmed := {InProgress, Completed, Failed, Refunded},
    InProgress := {Completed, Failed, Refunded},
    Completed := {Refunded},
    Cancelled := {},
    Refunded := {},
    Failed := {}
  ]

  const STAFF_TARGETS: set<OrderStatus> := {Confirmed, InProgress, Completed, Failed, Refunded}

  predicate CanTransition(current: OrderStatus, target: OrderStatus) {
    current in TRANSITIONS && target in TRANSITIONS[current]
  }

  function EnsureTransition(current: OrderStatus,
                            target: OrderStatus): Result<OrderStatus, (OrderStatus, OrderStatus)> {
    if CanTransition(current, target) then Ok(target) else Err((current, target))
  }

  /** How far along the graph a status is. */
  function Rank(status: OrderStatus): (rank: nat)
    ensures rank <= 4
  {
    match status
    case Created => 0
    case Confirmed => 1
    case InProgress => 2
    case Completed => 3
    case Cancelled | Refunded | Failed => 4
  }

  lemma EdgeRaisesRank(current: OrderStatus, target: OrderStatus)
    requires CanTransition(current, target)
    ensures Rank(current) < Rank(target)
    ensures target == Completed || (current == Completed && target == Refunded)
            ==> current in {Confirmed, InProgress, Completed}
  {
  }

  /** A history in which every entry repeats the one before it or follows an edge. */
  ghost predicate IsHistory(h: seq<OrderStatus>) {
    forall i {:trigger h[i]} :: 0 < i < |h| ==> h[i] == h[i - 1] || CanTransition(h[i - 1], h[i])
  }

  function Changes(h: seq<OrderStatus>): nat {
    if |h| < 2 then 0
    else Changes(h[..|h| - 1]) + if h[|h| - 1] == h[|h| - 2] then 0 else 1
  }

  lemma {:induction false} ChangesWithinRank(h: seq<OrderStatus>)
    requires IsHistory(h) && h != []
    ensures Rank(h[0]) + Changes(h) <= Rank(h[|h| - 1])
  {
    if |h| > 1 {
      var before := h[..|h| - 1];
      assert forall i {:trigger before[i]} :: 0 <= i < |before| ==> before[i] == h[i];
      ChangesWithinRank(before);
      assert before[|before| - 1] == h[|h| - 2];
      if h[|h| - 1] != h[|h| - 2] {
        EdgeRaisesRank(h[|h| - 2], h[|h| - 1]);
      }
    }
  }

  /** However long an order lives, its status changes at most four times. */
  lemma AtMostFourChanges(h: seq<OrderStatus>)
    requires IsHistory(h)
    ensures Changes(h) <= 4
  {
    if h != [] {
      ChangesWithinRank(h);
    }
  }
}
