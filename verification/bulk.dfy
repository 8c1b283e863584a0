/**
 The bulk actions of the admin screen (delete or re-status the checked
 bookings, mark every unread notification read): one API call per selected
 id, in order, where a failing call is logged and the loop goes on.
 */
module Bulk {

  /** How a bulk action ended. */
  datatype BulkOutcome<Id> =
    | NothingSelected                          // warning (or info) shown, no call
    | Declined                                 // the confirm dialog was cancelled, no call
    | Finished(calls: seq<Id>, success: nat)   // "<success>/<n>" reported

  /** Number of the first `n` calls that succeed; `callOk(i)` is the fate
      of the i-th call, which the model takes as given. */
  function Succeeding(callOk: nat -> bool, n: nat): (r: nat)
    ensures r <= n
  {
    if n == 0 then 0 else Succeeding(callOk, n - 1) + (if callOk(n - 1) then 1 else 0)
  }

  /** The loop of `bulkDeleteBookings`, `bulkUpdateBookingStatus` and
      `markAllNotificationsAsRead`. */
  method RunBulk<Id>(selected: seq<Id>, confirmed: bool, callOk: nat -> bool) returns (r: BulkOutcome<Id>)
    ensures |selected| == 0 <==> r == NothingSelected
    ensures |selected| > 0 && !confirmed <==> r == Declined
    ensures r.Finished? ==> r.calls == selected && r.success == Succeeding(callOk, |selected|)
    ensures r.Finished? ==> r.success <= |r.calls|
  {
    if |selected| == 0 {
      return NothingSelected;
    }
    if !confirmed {
      return Declined;
    }
    var calls: seq<Id> := [];
    var success := 0;
    var i := 0;
    while i < |selected|
      invariant 0 <= i <= |selected|
      invariant calls == selected[..i]
      invariant success == Succeeding(callOk, i)
    {
      calls := calls + [selected[i]];
      if callOk(i) {
        success := success + 1;
      }
      i := i + 1;
    }
    assert selected[..|selected|] == selected;
    return Finished(calls, success);
  }

  /** Every call succeeding gives a full count; one failure costs exactly
      one, wherever it happens, and does not stop the later calls. */
  lemma {:induction false} SucceedingBounds(callOk: nat -> bool, n: nat, bad: nat)
    requires bad < n
    requires forall i :: 0 <= i < n && i != bad ==> callOk(i)
    requires !callOk(bad)
    ensures Succeeding(callOk, n) == n - 1
    decreases n
  {
    if n - 1 != bad {
      SucceedingBounds(callOk, n - 1, bad);
    } else {
      SucceedingAll(callOk, n - 1);
    }
  }

  lemma {:induction false} SucceedingAll(callOk: nat -> bool, n: nat)
    requires forall i :: 0 <= i < n ==> callOk(i)
    ensures Succeeding(callOk, n) == n
    decreases n
  {
    if n > 0 {
      SucceedingAll(callOk, n - 1);
    }
  }
}
