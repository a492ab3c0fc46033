/**
 * The numbering loop of `add_links` and `edit_links`: each pasted link, in
 * order, is stored with the next (week, day) slot of the rotation, four slots
 * in week 1 and five in every later week.
 */
module Links {
  import opened Slots

  /** A stored link: the slot it was numbered with and the link text, kept opaque. */
  datatype LinkRecord = LinkRecord(week: int, day: int, link: string)

  /** The slot a record was stored with. */
  function SlotOf(r: LinkRecord): Slot {
    Slot(r.week, r.day)
  }

  /** The records the loop stores for `links`: the i-th link with the slot at position i. */
  function Numbering(links: seq<string>): (rs: seq<LinkRecord>)
    ensures |rs| == |links|
  {
    seq(|links|, i requires 0 <= i < |links| => LinkRecord(SlotAt(i).week, SlotAt(i).day, links[i]))
  }

  /**
   * The loop itself: `week` and `day` start at (1, 1); after each link the
   * day advances, and past day 4 of week 1 or day 5 of a later week the week
   * advances and the day restarts at 1.
   */
  method NumberLinks(links: seq<string>) returns (records: seq<LinkRecord>)
    ensures records == Numbering(links)
  {
    records := [];
    var week, day := 1, 1;
    for i := 0 to |links|
      invariant Slot(week, day) == SlotAt(i)
      invariant records == Numbering(links[..i])
    {
      records := records + [LinkRecord(week, day, links[i])];
      SlotAtSucc(i);
      day := day + 1;
      if (week == 1 && day > 4) || (week > 1 && day > 5) {
        week := week + 1;
        day := 1;
      }
      assert links[..i + 1] == links[..i] + [links[i]];
    }
    assert links[..|links|] == links;
  }

  /** Every stored slot is valid, and the links keep their pasted order. */
  lemma NumberingValid(links: seq<string>, i: int)
    requires 0 <= i < |links|
    ensures ValidSlot(SlotOf(Numbering(links)[i]))
    ensures Numbering(links)[i].link == links[i]
  {
  }

  /** Stored slots strictly increase with the pasting order, so no two links share a slot. */
  lemma NumberingIncreasing(links: seq<string>, i: int, j: int)
    requires 0 <= i < j < |links|
    ensures Before(SlotOf(Numbering(links)[i]), SlotOf(Numbering(links)[j]))
    ensures SlotOf(Numbering(links)[i]) != SlotOf(Numbering(links)[j])
  {
    SlotOrder(i, j);
  }

  /**
   * The i-th link is stored with the slot `_week_day_for_student` returns
   * once i + 1 sendable business days have passed.
   */
  lemma NumberingMatchesSlotLookup(links: seq<string>, i: int)
    requires 0 <= i < |links|
    ensures SlotOf(Numbering(links)[i]) == SlotForSendDays(i + 1)
  {
    SlotForSendDaysIsSlotAt(i + 1);
  }
}
