/**
 * Transactions handed to a wallet and the reading of their receipts, for the payment hooks (src/hooks/usePayment.ts).
 * A submission is unsettled until its receipt is read, as a success or as a revert.
 */
module Submissions {

  /** A receipt that could not be read leaves the transaction's fate open. */
  datatype Receipt = Success | Reverted | Unread

  /** How a request to the API ends: refused or lost on the way, processed with a lost reply, or processed and answered. */
  datatype Reply = Refused | Processed | Answered

  datatype Mark = Launch | Settle | Other

  /** What one call does: it reaches no wallet, its transaction is settled, or its receipt stays unread. */
  datatype Kind = Grounded | Landed | LeftUnread

  function AfterMark(flying: bool, m: Mark): bool {
    match m
    case Launch => true
    case Settle => false
    case Other => flying
  }

  /** Whether the last submission is unsettled. */
  function InFlight(flying: bool, marks: seq<Mark>): bool
    decreases |marks|
  {
    if marks == [] then flying else InFlight(AfterMark(flying, marks[0]), marks[1..])
  }

  /** Nothing is submitted while an earlier submission is unsettled. */
  predicate SingleFlight(flying: bool, marks: seq<Mark>)
    decreases |marks|
  {
    marks == [] || ((marks[0].Launch? ==> !flying) && SingleFlight(AfterMark(flying, marks[0]), marks[1..]))
  }

  /** Submissions minus read receipts. */
  function Unsettled(marks: seq<Mark>): int {
    if marks == [] then 0
    else (match marks[0] case Launch => 1 case Settle => -1 case Other => 0) + Unsettled(marks[1..])
  }

  lemma {:induction false} MarksConcat(flying: bool, a: seq<Mark>, b: seq<Mark>)
    ensures InFlight(flying, a + b) == InFlight(InFlight(flying, a), b)
    ensures SingleFlight(flying, a + b) <==> SingleFlight(flying, a) && SingleFlight(InFlight(flying, a), b)
    ensures Unsettled(a + b) == Unsettled(a) + Unsettled(b)
    decreases |a|
  {
    if a == [] {
      assert a + b == b;
    } else {
      assert (a + b)[0] == a[0] && (a + b)[1..] == a[1..] + b;
      MarksConcat(AfterMark(flying, a[0]), a[1..], b);
    }
  }

  /** The marks of one call are those of its kind. */
  predicate Fits(marks: seq<Mark>, kind: Kind) {
    match kind
    case Grounded =>
      Unsettled(marks) == 0 && forall flying :: SingleFlight(flying, marks) && InFlight(flying, marks) == flying
    case Landed =>
      Unsettled(marks) == 0 && forall flying :: (SingleFlight(flying, marks) <==> !flying) && !InFlight(flying, marks)
    case LeftUnread =>
      Unsettled(marks) == 1 && forall flying :: (SingleFlight(flying, marks) <==> !flying) && InFlight(flying, marks)
  }

  lemma {:induction false} OthersAreGrounded(marks: seq<Mark>)
    requires forall i :: 0 <= i < |marks| ==> marks[i].Other?
    ensures Fits(marks, Grounded)
  {
    if marks != [] {
      OthersAreGrounded(marks[1..]);
      forall flying
        ensures SingleFlight(flying, marks) && InFlight(flying, marks) == flying
      {
      }
    }
  }

  /** A submission among other entries, with its receipt read or not. */
  lemma LaunchFits(before: seq<Mark>, after: seq<Mark>)
    requires Fits(before, Grounded) && Fits(after, Grounded)
    ensures Fits(before + [Launch] + after, LeftUnread)
    ensures Fits(before + [Launch, Settle] + after, Landed)
  {
    forall flying
      ensures (SingleFlight(flying, before + [Launch] + after) <==> !flying) && InFlight(flying, before + [Launch] + after)
      ensures (SingleFlight(flying, before + [Launch, Settle] + after) <==> !flying)
      ensures !InFlight(flying, before + [Launch, Settle] + after)
    {
      LaunchEffect(flying, before, [Launch], after);
      LaunchEffect(flying, before, [Launch, Settle], after);
    }
    LaunchEffect(false, before, [Launch], after);
    LaunchEffect(false, before, [Launch, Settle], after);
  }

  lemma LaunchEffect(flying: bool, before: seq<Mark>, flight: seq<Mark>, after: seq<Mark>)
    requires Fits(before, Grounded) && Fits(after, Grounded) && (flight == [Launch] || flight == [Launch, Settle])
    ensures SingleFlight(flying, before + flight + after) <==> !flying
    ensures InFlight(flying, before + flight + after) == (|flight| == 1)
    ensures Unsettled(before + flight + after) == if |flight| == 1 then 1 else 0
  {
    MarksConcat(flying, before, flight);
    MarksConcat(flying, before + flight, after);
    assert flight[1..] == (if |flight| == 1 then [] else [Settle]) && [Settle][1..] == [];
  }

  /** After an unread receipt no call reaches the wallet; `flying` says whether one is unread from before. */
  predicate NoneAfterUnread(flying: bool, kinds: seq<Kind>) {
    && (flying ==> forall j :: 0 <= j < |kinds| ==> kinds[j].Grounded?)
    && (forall i, j :: 0 <= i < j < |kinds| && kinds[i].LeftUnread? ==> kinds[j].Grounded?)
  }

  /** One more call in front: what its kind means for the calls behind it. */
  lemma KindInFront(flying: bool, kind: Kind, kinds: seq<Kind>, marks: seq<Mark>)
    requires Fits(marks, kind)
    ensures NoneAfterUnread(flying, [kind] + kinds)
            <==> SingleFlight(flying, marks) && NoneAfterUnread(InFlight(flying, marks), kinds)
  {
    var all := [kind] + kinds;
    assert forall j :: 0 <= j < |kinds| ==> kinds[j] == all[j + 1];
    assert forall j :: 1 <= j < |all| ==> all[j] == kinds[j - 1];
    assert all[0] == kind;
    assert SingleFlight(flying, marks) <==> (flying ==> kind.Grounded?);
    assert InFlight(flying, marks) <==> kind.LeftUnread? || (flying && kind.Grounded?);
  }
}
