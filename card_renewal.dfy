/**
 * The access-card renewal page: urgency from the days left before a card expires, the
 * searched, filtered and urgency-ordered list, the renew / extend / bulk-renew actions,
 * and the card selection. Times are milliseconds since the epoch; "now" is a parameter.
 */
module CardRenewal {
  import opened Wrappers
  import opened Seqs
  import opened Text

  const MS_PER_DAY := 86400000
  /** A renewal runs for 365 days from the moment of renewal. */
  const RENEWAL_DAYS := 365
  /** An extension adds 90 days to the current expiry. */
  const EXTENSION_DAYS := 90

  datatype RenewalStatus = Expired | Expiring | Active | Renewed | Pending

  datatype EntryKind = Initial | Renewal

  datatype HistoryEntry = HistoryEntry(date: int, kind: EntryKind, expiryDate: int)

  datatype CardRecord = CardRecord(
    id: string,
    employeeId: string,
    name: string,
    department: string,
    position: string,
    expiry: int,
    renewalStatus: RenewalStatus,
    lastRenewalDate: Option<int>,
    history: seq<HistoryEntry>,
    accessLevel: string)

  /** `Math.ceil(a / b)` for a positive `b`. */
  function CeilDiv(a: int, b: int): (q: int)
    requires b > 0
    ensures (q - 1) * b < a <= q * b
  {
    -((-a) / b)
  }

  /** Whole days until `expiry`, rounded up: any part of a day left counts as a day. */
  function DaysUntilExpiry(expiry: int, now: int): (d: int)
    ensures (d - 1) * MS_PER_DAY < expiry - now <= d * MS_PER_DAY
  {
    CeilDiv(expiry - now, MS_PER_DAY)
  }

  /** Adding whole days to an expiry adds exactly that many days to the days left. */
  lemma {:induction false} DaysUntilShift(expiry: int, now: int, days: int)
    ensures DaysUntilExpiry(expiry + days * MS_PER_DAY, now) == DaysUntilExpiry(expiry, now) + days
  {
    var d := DaysUntilExpiry(expiry, now);
    var e := DaysUntilExpiry(expiry + days * MS_PER_DAY, now);
    assert (e - 1) * MS_PER_DAY < expiry - now + days * MS_PER_DAY <= e * MS_PER_DAY;
    assert (e - days - 1) * MS_PER_DAY < expiry - now <= (e - days) * MS_PER_DAY;
  }

  datatype Urgency = Expired | Critical | Warning | Normal

  /** `getUrgencyLevel` on the days left. */
  function UrgencyOfDays(days: int): (u: Urgency)
    ensures u == Urgency.Expired <==> days < 0
    ensures u == Critical <==> 0 <= days <= 7
    ensures u == Warning <==> 8 <= days <= 30
    ensures u == Normal <==> days > 30
  {
    if days < 0 then Urgency.Expired
    else if days <= 7 then Critical
    else if days <= 30 then Warning
    else Normal
  }

  function GetUrgencyLevel(expiry: int, now: int): Urgency {
    UrgencyOfDays(DaysUntilExpiry(expiry, now))
  }

  /** The sort order `{ expired: 0, critical: 1, warning: 2, normal: 3 }`. */
  function UrgencyRank(u: Urgency): (r: nat)
    ensures r <= 3
  {
    match u
    case Expired => 0
    case Critical => 1
    case Warning => 2
    case Normal => 3
  }

  /** More days left never makes a card more urgent. */
  lemma UrgencyMonotone(d1: int, d2: int)
    requires d1 <= d2
    ensures UrgencyRank(UrgencyOfDays(d1)) <= UrgencyRank(UrgencyOfDays(d2))
  {
  }

  /** The status filter: 'all' or one renewal status. */
  datatype StatusFilter = AllStatuses | Only(status: RenewalStatus)

  /** Name, employee id or department contains the search term, and the status passes the filter. */
  predicate MatchesCard(c: CardRecord, searchTerm: string, filter: StatusFilter) {
    && (ContainsIgnoreCase(c.name, searchTerm) || ContainsIgnoreCase(c.employeeId, searchTerm)
        || ContainsIgnoreCase(c.department, searchTerm))
    && (filter == AllStatuses || c.renewalStatus == filter.status)
  }

  /** The listing order: a card may precede another when it is at least as urgent. */
  function ByUrgency(now: int): (CardRecord, CardRecord) -> bool {
    (a: CardRecord, b: CardRecord) =>
      UrgencyRank(GetUrgencyLevel(a.expiry, now)) <= UrgencyRank(GetUrgencyLevel(b.expiry, now))
  }

  /** `filteredCards`: the matching cards, most urgent first (a stable sort). */
  function FilteredCards(cards: seq<CardRecord>, searchTerm: string, filter: StatusFilter, now: int): seq<CardRecord> {
    SortBy(ByUrgency(now), Filter((c: CardRecord) => MatchesCard(c, searchTerm, filter), cards))
  }

  /**
   * The listed cards are exactly the matching cards, each as often as it occurs, ordered
   * expired, then critical, then warning, then normal.
   */
  lemma {:induction false} FilteredCardsSpec(cards: seq<CardRecord>, searchTerm: string, filter: StatusFilter, now: int, c: CardRecord)
    ensures multiset(FilteredCards(cards, searchTerm, filter, now))[c] ==
              if MatchesCard(c, searchTerm, filter) then multiset(cards)[c] else 0
    ensures forall i, j :: 0 <= i < j < |FilteredCards(cards, searchTerm, filter, now)| ==>
              UrgencyRank(GetUrgencyLevel(FilteredCards(cards, searchTerm, filter, now)[i].expiry, now)) <=
              UrgencyRank(GetUrgencyLevel(FilteredCards(cards, searchTerm, filter, now)[j].expiry, now))
  {
    var p := (x: CardRecord) => MatchesCard(x, searchTerm, filter);
    FilterMultiset(p, cards, c);
    SortBySorted(ByUrgency(now), Filter(p, cards));
  }

  predicate IsExpiredCard(now: int, c: CardRecord) { GetUrgencyLevel(c.expiry, now) == Urgency.Expired }
  predicate IsExpiringSoonCard(now: int, c: CardRecord) {
    GetUrgencyLevel(c.expiry, now) == Critical || GetUrgencyLevel(c.expiry, now) == Warning
  }
  predicate IsActiveCard(now: int, c: CardRecord) { GetUrgencyLevel(c.expiry, now) == Normal }

  /** The four summary cards: expired, expiring soon (critical or warning), active, total listed. */
  datatype Summary = Summary(expired: nat, expiringSoon: nat, active: nat, total: nat)

  function SummaryOf(listed: seq<CardRecord>, now: int): (s: Summary)
    ensures s.total == |listed|
    ensures s.expired + s.expiringSoon + s.active == s.total
  {
    CountThree((c: CardRecord) => IsExpiredCard(now, c), (c: CardRecord) => IsExpiringSoonCard(now, c),
               (c: CardRecord) => IsActiveCard(now, c), listed);
    Summary(Count((c: CardRecord) => IsExpiredCard(now, c), listed),
            Count((c: CardRecord) => IsExpiringSoonCard(now, c), listed),
            Count((c: CardRecord) => IsActiveCard(now, c), listed),
            |listed|)
  }

  /** One card renewed at `now`: status 'renewed', renewed now, expiring in a year, one history entry more. */
  function RenewCard(c: CardRecord, now: int): (r: CardRecord)
    ensures r.id == c.id && r.employeeId == c.employeeId && r.name == c.name
    ensures r.department == c.department && r.position == c.position && r.accessLevel == c.accessLevel
    ensures r.renewalStatus == Renewed && r.lastRenewalDate == Some(now)
    ensures r.expiry == now + RENEWAL_DAYS * MS_PER_DAY
    ensures |r.history| == |c.history| + 1 && r.history[..|c.history|] == c.history
    ensures r.history[|c.history|] == HistoryEntry(now, Renewal, r.expiry)
  {
    var expiry := now + RENEWAL_DAYS * MS_PER_DAY;
    c.(renewalStatus := Renewed, lastRenewalDate := Some(now), expiry := expiry,
       history := c.history + [HistoryEntry(now, Renewal, expiry)])
  }

  /** A card renewed now has 365 days left, so it is not urgent. */
  lemma RenewedCardIsNormal(c: CardRecord, now: int)
    ensures DaysUntilExpiry(RenewCard(c, now).expiry, now) == RENEWAL_DAYS
    ensures GetUrgencyLevel(RenewCard(c, now).expiry, now) == Normal
  {
    DaysUntilShift(now, now, RENEWAL_DAYS);
  }

  /** Every card whose id is listed in `ids` renewed; every other card as it was. */
  function RenewIds(cards: seq<CardRecord>, ids: seq<string>, now: int): (r: seq<CardRecord>)
    ensures |r| == |cards|
    ensures forall i :: 0 <= i < |cards| && cards[i].id in ids ==> r[i] == RenewCard(cards[i], now)
    ensures forall i :: 0 <= i < |cards| && cards[i].id !in ids ==> r[i] == cards[i]
    decreases |cards|
  {
    if |cards| == 0 then []
    else [if cards[0].id in ids then RenewCard(cards[0], now) else cards[0]] + RenewIds(cards[1..], ids, now)
  }

  /** One card's expiry moved 90 days later; nothing else about it changes. */
  function ExtendCard(c: CardRecord): (r: CardRecord)
    ensures r.expiry == c.expiry + EXTENSION_DAYS * MS_PER_DAY
    ensures r.(expiry := c.expiry) == c
  {
    c.(expiry := c.expiry + EXTENSION_DAYS * MS_PER_DAY)
  }

  /** Extending gives exactly 90 more days and never makes the card more urgent. */
  lemma ExtendAddsNinetyDays(c: CardRecord, now: int)
    ensures DaysUntilExpiry(ExtendCard(c).expiry, now) == DaysUntilExpiry(c.expiry, now) + EXTENSION_DAYS
    ensures UrgencyRank(GetUrgencyLevel(c.expiry, now)) <= UrgencyRank(GetUrgencyLevel(ExtendCard(c).expiry, now))
  {
    DaysUntilShift(c.expiry, now, EXTENSION_DAYS);
    UrgencyMonotone(DaysUntilExpiry(c.expiry, now), DaysUntilExpiry(ExtendCard(c).expiry, now));
  }

  /** Every card with id `cardId` extended; every other card as it was. */
  function ExtendId(cards: seq<CardRecord>, cardId: string): (r: seq<CardRecord>)
    ensures |r| == |cards|
    ensures forall i :: 0 <= i < |cards| && cards[i].id == cardId ==> r[i] == ExtendCard(cards[i])
    ensures forall i :: 0 <= i < |cards| && cards[i].id != cardId ==> r[i] == cards[i]
    decreases |cards|
  {
    if |cards| == 0 then []
    else [if cards[0].id == cardId then ExtendCard(cards[0]) else cards[0]] + ExtendId(cards[1..], cardId)
  }

  datatype RenewalAction = Renew | Extend | ViewHistory

  /** `handleRenewalAction` on the card list: nothing happens for an unknown id or for view-history. */
  function ApplyRenewalAction(cards: seq<CardRecord>, cardId: string, action: RenewalAction, now: int): (r: seq<CardRecord>)
    ensures |r| == |cards|
    ensures (forall i :: 0 <= i < |cards| ==> cards[i].id != cardId) ==> r == cards
    ensures action == ViewHistory ==> r == cards
    ensures forall i :: 0 <= i < |cards| && cards[i].id != cardId ==> r[i] == cards[i]
    ensures action == Renew ==> forall i :: 0 <= i < |cards| && cards[i].id == cardId ==> r[i] == RenewCard(cards[i], now)
    ensures action == Extend ==> forall i :: 0 <= i < |cards| && cards[i].id == cardId ==> r[i] == ExtendCard(cards[i])
  {
    if Find((c: CardRecord) => c.id == cardId, cards).None? then cards
    else match action
      case Renew => RenewIds(cards, [cardId], now)
      case Extend => ExtendId(cards, cardId)
      case ViewHistory => cards
  }

  /** `toggleCardSelection`: remove the id (every occurrence) if selected, else add it at the end. */
  function ToggleSelection(selected: seq<string>, cardId: string): (r: seq<string>)
    ensures cardId in r <==> cardId !in selected
    ensures forall x :: x != cardId ==> (x in r <==> x in selected)
  {
    if cardId in selected then
      var r := Filter((x: string) => x != cardId, selected);
      forall x ensures x in r <==> x in selected && x != cardId {
        FilterMembership((x: string) => x != cardId, selected, x);
      }
      r
    else selected + [cardId]
  }

  /** Toggling the same card twice selects the same cards as before. */
  lemma ToggleTwice(selected: seq<string>, cardId: string, x: string)
    ensures x in ToggleSelection(ToggleSelection(selected, cardId), cardId) <==> x in selected
  {
  }

  /** Toggling never lists a card twice. */
  lemma {:induction false} ToggleKeepsNoDup(selected: seq<string>, cardId: string)
    requires NoDup(selected)
    ensures NoDup(ToggleSelection(selected, cardId))
  {
    if cardId in selected {
      var p := (x: string) => x != cardId;
      FilterIsSubseq(p, selected);
      SubseqNoDup(Filter(p, selected), selected);
    }
  }

  lemma {:induction false} SubseqNoDup(a: seq<string>, b: seq<string>)
    requires IsSubseq(a, b) && NoDup(b)
    ensures NoDup(a)
    decreases |b|
  {
    if |a| > 0 && |b| > 0 {
      if a[0] == b[0] {
        SubseqNoDup(a[1..], b[1..]);
        SubseqElements(a[1..], b[1..]);
        assert forall k :: 0 < k < |a| ==> a[k] in b[1..];
      } else {
        SubseqNoDup(a, b[1..]);
      }
    }
  }

  lemma {:induction false} SubseqElements(a: seq<string>, b: seq<string>)
    requires IsSubseq(a, b)
    ensures forall k :: 0 <= k < |a| ==> a[k] in b
    decreases |b|
  {
    if |a| > 0 && |b| > 0 {
      if a[0] == b[0] {
        SubseqElements(a[1..], b[1..]);
        assert forall k :: 1 <= k < |a| ==> a[k] == a[1..][k - 1];
      } else {
        SubseqElements(a, b[1..]);
      }
    }
  }

  /** `toggleSelectAll`: clear when the counts match, otherwise select every listed card. */
  function ToggleSelectAll(selected: seq<string>, listedIds: seq<string>): (r: seq<string>)
    ensures |selected| == |listedIds| ==> r == []
    ensures |selected| != |listedIds| ==> r == listedIds
  {
    if |selected| == |listedIds| then [] else listedIds
  }

  /** Only the counts are compared: a selection of other cards of the same size is cleared. */
  lemma SelectAllComparesLengthsOnly()
    ensures ToggleSelectAll(["1"], ["2"]) == []
  {
  }

  /**
   * With every listed card selected once, the button clears the selection: the counts then
   * agree because two duplicate-free lists of the same cards have the same length.
   */
  lemma {:induction false} SelectAllOfListedClears(selected: seq<string>, listedIds: seq<string>)
    requires NoDup(selected) && NoDup(listedIds)
    requires forall x :: x in selected <==> x in listedIds
    ensures ToggleSelectAll(selected, listedIds) == []
  {
    NoDupCardinality(selected);
    NoDupCardinality(listedIds);
    assert (set x | x in selected) == (set x | x in listedIds);
  }

  /** A duplicate-free list has as many elements as the set of its elements. */
  lemma {:induction false} NoDupCardinality(s: seq<string>)
    requires NoDup(s)
    ensures |set x | x in s| == |s|
  {
    if |s| > 0 {
      NoDupCardinality(s[1..]);
      assert (set x | x in s) == (set x | x in s[1..]) + {s[0]};
      assert s[0] !in s[1..];
    }
  }

  function CardIds(cards: seq<CardRecord>): (r: seq<string>)
    ensures |r| == |cards| && forall i :: 0 <= i < |cards| ==> r[i] == cards[i].id
  {
    seq(|cards|, i requires 0 <= i < |cards| => cards[i].id)
  }

  /** The page's state. */
  class CardRenewalPage {
    var cards: seq<CardRecord>
    var selected: seq<string>
    var searchTerm: string
    var statusFilter: StatusFilter

    constructor (initial: seq<CardRecord>)
      ensures cards == initial && selected == [] && searchTerm == "" && statusFilter == AllStatuses
    {
      cards := initial;
      selected := [];
      searchTerm := "";
      statusFilter := AllStatuses;
    }

    function Listed(now: int): seq<CardRecord>
      reads this
    {
      FilteredCards(cards, searchTerm, statusFilter, now)
    }

    method HandleRenewalAction(cardId: string, action: RenewalAction, now: int)
      modifies this
      ensures cards == ApplyRenewalAction(old(cards), cardId, action, now)
      ensures selected == old(selected) && searchTerm == old(searchTerm) && statusFilter == old(statusFilter)
    {
      cards := ApplyRenewalAction(cards, cardId, action, now);
    }

    /** `handleBulkRenewal`: with nothing selected nothing changes; otherwise renew the selection and clear it. */
    method HandleBulkRenewal(now: int)
      modifies this
      ensures old(selected) == [] ==> cards == old(cards) && selected == []
      ensures old(selected) != [] ==> cards == RenewIds(old(cards), old(selected), now) && selected == []
      ensures searchTerm == old(searchTerm) && statusFilter == old(statusFilter)
    {
      if |selected| == 0 {
        return;
      }
      cards := RenewIds(cards, selected, now);
      selected := [];
    }

    method ToggleCard(cardId: string)
      modifies this
      ensures selected == ToggleSelection(old(selected), cardId)
      ensures cards == old(cards) && searchTerm == old(searchTerm) && statusFilter == old(statusFilter)
    {
      selected := ToggleSelection(selected, cardId);
    }

    method SelectAll(now: int)
      modifies this
      ensures selected == ToggleSelectAll(old(selected), CardIds(old(Listed(now))))
      ensures cards == old(cards) && searchTerm == old(searchTerm) && statusFilter == old(statusFilter)
    {
      selected := ToggleSelectAll(selected, CardIds(Listed(now)));
    }

    method SetSearch(term: string, filter: StatusFilter)
      modifies this
      ensures searchTerm == term && statusFilter == filter
      ensures cards == old(cards) && selected == old(selected)
    {
      searchTerm := term;
      statusFilter := filter;
    }
  }
}
