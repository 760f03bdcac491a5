/**
 * The `approve` and `unapprove` admin actions on submitted price lists.
 * Each action walks the selected price lists in order, flips the lists whose
 * is_approved flag differs from the target, sends one notification email per
 * flipped list, and then adds one INFO message that counts the flipped lists.
 *
 * data_capture/admin.py and data_capture/email.py are not part of this
 * model; the actions are defined by what data_capture/tests/test_admin.py
 * asserts about them. A price list is identified by its position in the store.
 */
module PriceListAdmin {
  import opened Text

  /** The notification emails the actions send. */
  datatype Email = PriceListApproved(list: nat) | PriceListUnapproved(list: nat)

  datatype Level = Info

  /** A call of messages.add_message(request, level, text). */
  datatype Message = Message(request: string, level: Level, text: string)

  /** The email for a list that reaches the given approval state. */
  function NoticeFor(approve: bool, list: nat): Email
  {
    if approve then PriceListApproved(list) else PriceListUnapproved(list)
  }

  const ApprovedSummary: string := " price list(s) have been approved and added to CALC."
  const UnapprovedSummary: string := " price list(s) have been unapproved and removed from CALC."

  /** The summary the action reports for a number of flipped lists. */
  function SummaryText(approve: bool, count: nat): string
  {
    NatToString(count) + if approve then ApprovedSummary else UnapprovedSummary
  }

  /** A queryset: stored lists, each selected once. */
  predicate Selection(flags: seq<bool>, queryset: seq<nat>) {
    (forall k :: 0 <= k < |queryset| ==> queryset[k] < |flags|) &&
    (forall j, k :: 0 <= j < k < |queryset| ==> queryset[j] != queryset[k])
  }

  /** The flags once every selected list has the target state. */
  function SetAll(flags: seq<bool>, queryset: seq<nat>, approve: bool): (r: seq<bool>)
    ensures |r| == |flags|
    ensures forall i :: 0 <= i < |r| ==> r[i] == if i in queryset then approve else flags[i]
  {
    seq(|flags|, i requires 0 <= i < |flags| => if i in queryset then approve else flags[i])
  }

  /** The selected lists that are not yet in the target state, in queryset order. */
  function Flipped(flags: seq<bool>, queryset: seq<nat>, approve: bool): (r: seq<nat>)
    requires Selection(flags, queryset)
    ensures |r| <= |queryset|
    ensures forall list :: list in r <==> list in queryset && flags[list] != approve
  {
    if |queryset| == 0 then []
    else
      var last := queryset[|queryset| - 1];
      var rest := Flipped(flags, queryset[..|queryset| - 1], approve);
      assert forall list :: list in queryset <==> list in queryset[..|queryset| - 1] || list == last by {
        assert queryset == queryset[..|queryset| - 1] + [last];
      }
      if flags[last] != approve then rest + [last] else rest
  }

  /** The emails sent for the flipped lists, one each, in order. */
  function Notices(approve: bool, lists: seq<nat>): (r: seq<Email>)
    ensures |r| == |lists|
    ensures forall k :: 0 <= k < |lists| ==> r[k] == NoticeFor(approve, lists[k])
  {
    seq(|lists|, k requires 0 <= k < |lists| => NoticeFor(approve, lists[k]))
  }

  lemma SelectionPrefix(flags: seq<bool>, queryset: seq<nat>, k: nat)
    requires Selection(flags, queryset) && k <= |queryset|
    ensures Selection(flags, queryset[..k])
  {
  }

  /** The lists the first k selected lists flip. */
  function FlippedUpTo(flags: seq<bool>, queryset: seq<nat>, k: nat, approve: bool): seq<nat>
    requires Selection(flags, queryset) && k <= |queryset|
  {
    SelectionPrefix(flags, queryset, k);
    Flipped(flags, queryset[..k], approve)
  }

  /**
   * One more selected list: it still has its original flag, takes the target
   * value, and is flipped, with one more email, when its flag differed.
   */
  lemma ApprovalStep(flags: seq<bool>, queryset: seq<nat>, k: nat, approve: bool)
    requires Selection(flags, queryset) && k < |queryset|
    ensures SetAll(flags, queryset[..k], approve)[queryset[k]] == flags[queryset[k]]
    ensures SetAll(flags, queryset[..k + 1], approve) == SetAll(flags, queryset[..k], approve)[queryset[k] := approve]
    ensures FlippedUpTo(flags, queryset, k + 1, approve) ==
      FlippedUpTo(flags, queryset, k, approve) + if flags[queryset[k]] != approve then [queryset[k]] else []
    ensures Notices(approve, FlippedUpTo(flags, queryset, k, approve) + [queryset[k]]) ==
      Notices(approve, FlippedUpTo(flags, queryset, k, approve)) + [NoticeFor(approve, queryset[k])]
  {
    SelectionPrefix(flags, queryset, k);
    SelectionPrefix(flags, queryset, k + 1);
    assert queryset[..k + 1][..k] == queryset[..k];
    assert queryset[..k + 1] == queryset[..k] + [queryset[k]];
    assert queryset[k] !in queryset[..k];
  }

  /** The store of submitted price lists, with the emails and messages sent so far. */
  class PriceListStore {
    var approved: seq<bool>
    var emails: seq<Email>
    var messages: seq<Message>

    constructor (flags: seq<bool>)
      ensures approved == flags && emails == [] && messages == []
    {
      approved := flags;
      emails := [];
      messages := [];
    }

    /**
     * Brings every selected list to the target state, one email per list
     * that changed, and then one summary message counting those lists.
     */
    method SetApproval(request: string, queryset: seq<nat>, approve: bool) returns (count: nat)
      requires Selection(approved, queryset)
      modifies this
      ensures count == |Flipped(old(approved), queryset, approve)|
      ensures approved == SetAll(old(approved), queryset, approve)
      ensures emails == old(emails) + Notices(approve, Flipped(old(approved), queryset, approve))
      ensures messages == old(messages) + [Message(request, Info, SummaryText(approve, count))]
    {
      ghost var flags := approved;
      ghost var changed: seq<nat> := [];
      count := 0;
      var k := 0;
      while k < |queryset|
        invariant 0 <= k <= |queryset|
        invariant changed == FlippedUpTo(flags, queryset, k, approve)
        invariant approved == SetAll(flags, queryset[..k], approve)
        invariant count == |changed|
        invariant emails == old(emails) + Notices(approve, changed)
        invariant messages == old(messages)
      {
        var list := queryset[k];
        ApprovalStep(flags, queryset, k, approve);
        if approved[list] != approve {
          approved := approved[list := approve];
          emails := emails + [NoticeFor(approve, list)];
          count := count + 1;
          changed := changed + [list];
        }
        k := k + 1;
      }
      assert queryset[..k] == queryset;
      messages := messages + [Message(request, Info, SummaryText(approve, count))];
    }

    /** admin.approve: approves the selected lists that are not approved yet. */
    method Approve(request: string, queryset: seq<nat>) returns (count: nat)
      requires Selection(approved, queryset)
      modifies this
      ensures count == |Flipped(old(approved), queryset, true)|
      ensures approved == SetAll(old(approved), queryset, true)
      ensures emails == old(emails) + Notices(true, Flipped(old(approved), queryset, true))
      ensures messages == old(messages) + [Message(request, Info, SummaryText(true, count))]
    {
      count := SetApproval(request, queryset, true);
    }

    /** admin.unapprove: unapproves the selected lists that are approved. */
    method Unapprove(request: string, queryset: seq<nat>) returns (count: nat)
      requires Selection(approved, queryset)
      modifies this
      ensures count == |Flipped(old(approved), queryset, false)|
      ensures approved == SetAll(old(approved), queryset, false)
      ensures emails == old(emails) + Notices(false, Flipped(old(approved), queryset, false))
      ensures messages == old(messages) + [Message(request, Info, SummaryText(false, count))]
    {
      count := SetApproval(request, queryset, false);
    }
  }

  // ---------------------------------------------------------------------
  // Properties of the actions

  /** Lists already in the target state are not counted and get no email. */
  lemma {:induction false} NothingToFlip(flags: seq<bool>, queryset: seq<nat>, approve: bool)
    requires Selection(flags, queryset)
    requires forall k :: 0 <= k < |queryset| ==> flags[queryset[k]] == approve
    ensures Flipped(flags, queryset, approve) == []
  {
    if |queryset| > 0 {
      var init := queryset[..|queryset| - 1];
      assert Selection(flags, init);
      NothingToFlip(flags, init, approve);
    }
  }

  /** Running the same action again flips nothing: the second call reports 0. */
  lemma ActionIdempotent(flags: seq<bool>, queryset: seq<nat>, approve: bool)
    requires Selection(flags, queryset)
    ensures Selection(SetAll(flags, queryset, approve), queryset)
    ensures Flipped(SetAll(flags, queryset, approve), queryset, approve) == []
  {
    var after := SetAll(flags, queryset, approve);
    forall k | 0 <= k < |queryset| ensures after[queryset[k]] == approve {
      assert queryset[k] in queryset;
    }
    NothingToFlip(after, queryset, approve);
  }

  /** Each flipped list is counted once: the count is the number of lists that changed state. */
  lemma {:induction false} FlippedDistinct(flags: seq<bool>, queryset: seq<nat>, approve: bool)
    requires Selection(flags, queryset)
    ensures var r := Flipped(flags, queryset, approve);
      forall j, k :: 0 <= j < k < |r| ==> r[j] != r[k]
  {
    if |queryset| > 0 {
      var init := queryset[..|queryset| - 1];
      var last := queryset[|queryset| - 1];
      assert Selection(flags, init);
      FlippedDistinct(flags, init, approve);
      forall k | 0 <= k < |init| ensures init[k] != last {
        assert queryset[k] == init[k];
      }
      assert last !in init;
      assert last !in Flipped(flags, init, approve);
    }
  }

  /** The changed lists are exactly the selected lists whose flag the action changed. */
  lemma ChangedAreFlipped(flags: seq<bool>, queryset: seq<nat>, approve: bool)
    requires Selection(flags, queryset)
    ensures forall i :: 0 <= i < |flags| ==>
      (SetAll(flags, queryset, approve)[i] != flags[i] <==> i in Flipped(flags, queryset, approve))
  {
    forall i | 0 <= i < |flags|
      ensures SetAll(flags, queryset, approve)[i] != flags[i] <==> i in Flipped(flags, queryset, approve)
    {
      assert SetAll(flags, queryset, approve)[i] == if i in queryset then approve else flags[i];
    }
  }

  /** The summary messages the action tests expect for 0 and 1 changed lists. */
  lemma SummaryExamples()
    ensures SummaryText(true, 0) == "0" + " price list(s) have been approved and added to CALC."
    ensures SummaryText(false, 0) == "0" + " price list(s) have been unapproved and removed from CALC."
    ensures SummaryText(true, 1) == "1" + " price list(s) have been approved and added to CALC."
    ensures SummaryText(false, 1) == "1" + " price list(s) have been unapproved and removed from CALC."
  {
    assert NatToString(0) == "0" && NatToString(1) == "1";
  }

  /** Approving one unapproved list approves it, reports 1 and sends one approval email. */
  lemma ApproveOneExample()
    ensures Flipped([false], [0], true) == [0]
    ensures SetAll([false], [0], true) == [true]
    ensures Notices(true, [0]) == [PriceListApproved(0)]
  {
    assert [0][..0] == [];
  }

  /** Unapproving one approved list unapproves it, reports 1 and sends one email. */
  lemma UnapproveOneExample()
    ensures Flipped([true], [0], false) == [0]
    ensures SetAll([true], [0], false) == [false]
    ensures Notices(false, [0]) == [PriceListUnapproved(0)]
  {
    assert [0][..0] == [];
  }

  /** Approving an approved list, or unapproving an unapproved one, reports 0 and sends nothing. */
  lemma IgnoredExamples()
    ensures Flipped([true], [0], true) == []
    ensures Flipped([false], [0], false) == []
  {
    assert [0][..0] == [];
  }
}
