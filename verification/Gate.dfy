/**
 * The two upload gates: the AlterID dirty bit decides what to ask Tally for, the content hash
 * decides what to send (packages/sync/src/gate.ts).
 */
module Gate {
  import opened Wrappers

  type Guid = string
  type IsoDate = string

  /** SHA-256 is taken to be injective, so a digest stands for the content it was taken of. */
  type Digest = string

  datatype Section =
    | Company | GroupBalance | CashBank | DutiesTaxes
    | AgeingReceivable | AgeingPayable | StockValue | PeriodRevenue

  const SECTIONS: seq<Section> :=
    [Company, GroupBalance, CashBank, DutiesTaxes, AgeingReceivable, AgeingPayable, StockValue, PeriodRevenue]

  const VOUCHER_SECTIONS: seq<Section> :=
    [GroupBalance, CashBank, DutiesTaxes, AgeingReceivable, AgeingPayable, StockValue, PeriodRevenue]

  const MASTER_SECTIONS: seq<Section> :=
    [Company, GroupBalance, CashBank, DutiesTaxes, StockValue]

  /** An AlterID as probed: NaN, infinite and negative numbers are all `Unusable`. */
  datatype Counter = Unusable | Count(n: nat)

  datatype Watermark = Watermark(companyGuid: Guid, altMstId: Counter, altVchId: Counter) {
    predicate Usable() {
      altMstId.Count? && altVchId.Count?
    }
  }

  datatype Reason = FirstSight | CurrentUnusable | StoredUnusable | GuidChanged | MovedBackward | BothMoved

  datatype Decision = Skip | Partial(sections: seq<Section>) | Full(reason: Reason)

  function DecideGate(stored: Option<Watermark>, current: Watermark): (d: Decision) {
    if stored.None? then Full(FirstSight)
    else
      var w := stored.value;
      if !current.Usable() then Full(CurrentUnusable)
      else if !w.Usable() then Full(StoredUnusable)
      else if w.companyGuid != current.companyGuid then Full(GuidChanged)
      else if current.altMstId.n < w.altMstId.n || current.altVchId.n < w.altVchId.n then Full(MovedBackward)
      else
        var mastersMoved := current.altMstId.n > w.altMstId.n;
        var vouchersMoved := current.altVchId.n > w.altVchId.n;
        if !mastersMoved && !vouchersMoved then Skip
        else if mastersMoved && vouchersMoved then Full(BothMoved)
        else Partial(if vouchersMoved then VOUCHER_SECTIONS else MASTER_SECTIONS)
  }

  predicate ShouldUpload(storedHash: Option<Digest>, currentHash: Digest) {
    storedHash != Some(currentHash)
  }

  /** The sections a decision re-pulls. */
  function SectionsOf(d: Decision): seq<Section> {
    match d
    case Skip => []
    case Partial(sections) => sections
    case Full(_) => SECTIONS
  }

  /** A stored watermark that cannot be compared with the probe, or that the probe has fallen below. */
  predicate Void(stored: Option<Watermark>, current: Watermark) {
    || stored.None?
    || !current.Usable()
    || !stored.value.Usable()
    || stored.value.companyGuid != current.companyGuid
    || Below(current, stored.value)
  }

  predicate Below(current: Watermark, stored: Watermark)
    requires current.Usable() && stored.Usable()
  {
    current.altMstId.n < stored.altMstId.n || current.altVchId.n < stored.altVchId.n
  }

  /** Some counter whose section list names `s` has moved up. */
  predicate ListedMoved(stored: Watermark, current: Watermark, s: Section)
    requires current.Usable() && stored.Usable()
  {
    || (s in VOUCHER_SECTIONS && current.altVchId.n > stored.altVchId.n)
    || (s in MASTER_SECTIONS && current.altMstId.n > stored.altMstId.n)
  }

  /** Which list names a section: vouchers all but the company, masters all but the ageings and the revenue. */
  lemma {:induction false} EverySectionIsListed(s: Section)
    ensures s in SECTIONS
    ensures s in VOUCHER_SECTIONS <==> s != Company
    ensures s in MASTER_SECTIONS <==> s != AgeingReceivable && s != AgeingPayable && s != PeriodRevenue
  {
    assert forall i | 0 <= i < |VOUCHER_SECTIONS| :: VOUCHER_SECTIONS[i] != Company;
    assert forall i | 0 <= i < |MASTER_SECTIONS| ::
        MASTER_SECTIONS[i] != AgeingReceivable && MASTER_SECTIONS[i] != AgeingPayable
        && MASTER_SECTIONS[i] != PeriodRevenue;
    match s
    case Company => assert SECTIONS[0] == s && MASTER_SECTIONS[0] == s;
    case GroupBalance => assert SECTIONS[1] == s && VOUCHER_SECTIONS[0] == s && MASTER_SECTIONS[1] == s;
    case CashBank => assert SECTIONS[2] == s && VOUCHER_SECTIONS[1] == s && MASTER_SECTIONS[2] == s;
    case DutiesTaxes => assert SECTIONS[3] == s && VOUCHER_SECTIONS[2] == s && MASTER_SECTIONS[3] == s;
    case AgeingReceivable => assert SECTIONS[4] == s && VOUCHER_SECTIONS[3] == s;
    case AgeingPayable => assert SECTIONS[5] == s && VOUCHER_SECTIONS[4] == s;
    case StockValue => assert SECTIONS[6] == s && VOUCHER_SECTIONS[5] == s && MASTER_SECTIONS[4] == s;
    case PeriodRevenue => assert SECTIONS[7] == s && VOUCHER_SECTIONS[6] == s;
  }

  /**
   * The gate is exact, section by section: a section is pulled if and only if the watermark is
   * void or a counter that lists the section moved. Both lists together cover every section,
   * which is what makes the both-moved branch's full pull agree with the two partial ones. The
   * company is forgotten first if and only if the watermark is void or both counters moved.
   */
  lemma {:induction false} PullsExactly(stored: Option<Watermark>, current: Watermark, s: Section)
    ensures s in SectionsOf(DecideGate(stored, current)) <==>
            Void(stored, current) || ListedMoved(stored.value, current, s)
    ensures DecideGate(stored, current).Full? <==>
            Void(stored, current)
            || (current.altMstId.n > stored.value.altMstId.n && current.altVchId.n > stored.value.altVchId.n)
  {
    EverySectionIsListed(s);
  }

  /** A skip is decided only for a usable watermark of the same company with equal counters. */
  lemma {:induction false} SkipsExactly(stored: Option<Watermark>, current: Watermark)
    ensures DecideGate(stored, current) == Skip <==> stored == Some(current) && current.Usable()
  {
  }

  /** A probe in which only vouchers moved does not pull the company section, whatever its payload draws on. */
  lemma {:induction false} VouchersAloneLeaveCompanyOut(stored: Watermark, current: Watermark)
    requires stored.Usable() && current.Usable() && stored.companyGuid == current.companyGuid
    requires current.altMstId == stored.altMstId && current.altVchId.n > stored.altVchId.n
    ensures DecideGate(Some(stored), current) == Partial(VOUCHER_SECTIONS)
    ensures Company !in SectionsOf(DecideGate(Some(stored), current))
  {
    PullsExactly(Some(stored), current, Company);
    assert forall i | 0 <= i < |VOUCHER_SECTIONS| :: VOUCHER_SECTIONS[i] != Company;
  }
}
