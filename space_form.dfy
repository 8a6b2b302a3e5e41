/** The space form's time-slot editor: a list of slots with an add button
    guarded by two checks and a remove button per slot. The slot id is the
    clock reading `Date.now()`, which the caller supplies. */
module SpaceForm {
  import opened Common
  import opened Clock

  const DEFAULT_START := "09:00"
  const DEFAULT_END := "17:00"

  datatype FormSlot = FormSlot(id: string, startTime: string, endTime: string)

  /** Which toast `handleAddTimeSlot` shows. */
  datatype AddOutcome = TimesRequired | EndNotAfterStart | SlotAdded

  /** The two checks in their order: both times present, then
      `newStartTime >= newEndTime` as a string comparison. */
  function AddCheck(start: string, end: string): (o: AddOutcome)
    ensures o == TimesRequired <==> start == "" || end == ""
    ensures o == EndNotAfterStart <==> start != "" && end != "" && !LexLess(start, end)
    ensures o == SlotAdded <==> start != "" && end != "" && LexLess(start, end)
  {
    if start == "" || end == "" then TimesRequired
    else if !LexLess(start, end) then EndNotAfterStart
    else SlotAdded
  }

  /** On zero-padded `HH:MM` strings the string order is the order of the
      times of day. */
  lemma PaddedOrderIsTimeOrder(a: string, b: string)
    requires IsPaddedHHMM(a) && IsPaddedHHMM(b)
    ensures LexLess(a, b) <==> Minutes(a) < Minutes(b)
  {
    var a1, b1 := a[1..], b[1..];
    var a3, b3 := a1[2..], b1[2..];
    assert a[3..] == a3 && b[3..] == b3;
    if a[0] != b[0] {
      assert LexLess(a, b) == (a[0] < b[0]);
    } else if a[1] != b[1] {
      assert LexLess(a, b) == LexLess(a1, b1) == (a[1] < b[1]);
    } else {
      assert LexLess(a1, b1) == LexLess(a1[1..], b1[1..]) == LexLess(a3, b3);
      if a[3] != b[3] {
        assert LexLess(a3, b3) == (a[3] < b[3]);
      } else {
        var a4, b4 := a3[1..], b3[1..];
        assert LexLess(a3, b3) == LexLess(a4, b4);
        assert a4 == [a[4]] && b4 == [b[4]];
        assert LexLess(a4, b4) == (a[4] < b[4]) by {
          assert a4[1..] == [] && b4[1..] == [];
        }
      }
    }
  }

  /** The add check accepts padded times exactly when the end is later in
      the day; equal times are refused, and the form's defaults pass. */
  lemma AddCheckOnPaddedTimes(start: string, end: string)
    requires IsPaddedHHMM(start) && IsPaddedHHMM(end)
    ensures AddCheck(start, end) == SlotAdded <==> Minutes(start) < Minutes(end)
    ensures AddCheck(start, start) == EndNotAfterStart
    ensures AddCheck(DEFAULT_START, DEFAULT_END) == SlotAdded
  {
    PaddedOrderIsTimeOrder(start, end);
    PaddedOrderIsTimeOrder(start, start);
    PaddedOrderIsTimeOrder(DEFAULT_START, DEFAULT_END);
  }

  /** `timeSlots.filter(slot => slot.id !== id)`. */
  function WithoutSlot(slots: seq<FormSlot>, id: string): (r: seq<FormSlot>)
    ensures forall s :: s in r <==> s in slots && s.id != id
    ensures IsSubsequence(r, slots)
  {
    FilterIsSubsequence(slots, (s: FormSlot) => s.id != id);
    Filter(slots, (s: FormSlot) => s.id != id)
  }

  /** Removal keeps every slot of another id as often as the list holds it. */
  lemma WithoutSlotCounts(slots: seq<FormSlot>, id: string)
    ensures forall s :: multiset(WithoutSlot(slots, id))[s] == if s.id != id then multiset(slots)[s] else 0
  {
    FilterCounts(slots, (s: FormSlot) => s.id != id);
  }

  /** Every listed slot passed the add check. */
  predicate Accepted(s: FormSlot) {
    AddCheck(s.startTime, s.endTime) == SlotAdded
  }

  class Form {
    var timeSlots: seq<FormSlot>
    var newStartTime: string
    var newEndTime: string

    predicate Valid()
      reads this
    {
      forall i | 0 <= i < |timeSlots| :: Accepted(timeSlots[i])
    }

    constructor()
      ensures timeSlots == [] && newStartTime == DEFAULT_START && newEndTime == DEFAULT_END
      ensures Valid()
    {
      timeSlots := [];
      newStartTime := DEFAULT_START;
      newEndTime := DEFAULT_END;
    }

    /** The time inputs. */
    method SetTimes(start: string, end: string)
      modifies this`newStartTime, this`newEndTime
      ensures newStartTime == start && newEndTime == end
    {
      newStartTime := start;
      newEndTime := end;
    }

    /** `handleAddTimeSlot`: a refused slot changes nothing; an accepted
      one is appended under the id `stamp` and the inputs are reset. */
    method HandleAddTimeSlot(stamp: nat) returns (outcome: AddOutcome)
      requires Valid()
      modifies this
      ensures Valid()
      ensures outcome == AddCheck(old(newStartTime), old(newEndTime))
      ensures outcome != SlotAdded ==>
                timeSlots == old(timeSlots) && newStartTime == old(newStartTime) && newEndTime == old(newEndTime)
      ensures outcome == SlotAdded ==>
                timeSlots == old(timeSlots) + [FormSlot(IntToString(stamp), old(newStartTime), old(newEndTime))] &&
                newStartTime == DEFAULT_START && newEndTime == DEFAULT_END
    {
      if newStartTime == "" || newEndTime == "" {
        return TimesRequired;
      }
      if !LexLess(newStartTime, newEndTime) {
        return EndNotAfterStart;
      }
      timeSlots := timeSlots + [FormSlot(IntToString(stamp), newStartTime, newEndTime)];
      newStartTime := DEFAULT_START;
      newEndTime := DEFAULT_END;
      outcome := SlotAdded;
    }

    /** `handleRemoveTimeSlot`. */
    method HandleRemoveTimeSlot(id: string)
      requires Valid()
      modifies this`timeSlots
      ensures Valid()
      ensures timeSlots == WithoutSlot(old(timeSlots), id)
    {
      timeSlots := WithoutSlot(timeSlots, id);
      assert forall i | 0 <= i < |timeSlots| :: timeSlots[i] in old(timeSlots);
    }
  }
}
