/** The daily quota of publish: one entry {date, count} per vendor, reset when
    its calendar date is not today, refusing when the count has reached
    MaxDaily and otherwise charged one post. */
module Quota {
  import opened Wrappers

  /** A calendar date, as a day number; only equality of dates matters. */
  type Day = int

  /** MAX_DAILY */
  const MaxDaily: int := 2

  /** daily_counter[user] = {"date": date, "count": count} */
  datatype Entry = Entry(date: Day, count: int)

  /** The two resets before the admission test: a missing entry, or one
      dated another day, becomes {today, 0}. */
  function Refresh(entry: Option<Entry>, today: Day): (r: Entry)
    ensures r.date == today
    ensures r.count == 0 || entry == Some(r)
  {
    if entry.None? then Entry(today, 0)
    else if entry.value.date != today then Entry(today, 0)
    else entry.value
  }

  /** The admission test: refused once the count has reached MaxDaily. */
  predicate Admits(e: Entry)
    ensures Admits(e) ==> e.count + 1 <= MaxDaily
  {
    e.count < MaxDaily
  }

  /** The entry stored once a publish attempt on day today has passed the
      quota code: refreshed, then charged one post if admitted. */
  function Charge(entry: Option<Entry>, today: Day): (r: Entry)
    ensures r.date == today
    ensures Refresh(entry, today).count <= r.count <= Refresh(entry, today).count + 1
  {
    var e := Refresh(entry, today);
    if Admits(e) then e.(count := e.count + 1) else e
  }

  /** What every stored entry satisfies. */
  predicate WithinQuota(entry: Option<Entry>) {
    entry.None? || 0 <= entry.value.count <= MaxDaily
  }

  /** One attempt: a missing or stale entry counts as zero posts today; the
      attempt is admitted exactly when fewer than MaxDaily posts were made
      today; an admitted attempt adds exactly one post, a refused one leaves
      the stored entry as it was; and the stored count stays within the quota. */
  lemma ChargeSpec(entry: Option<Entry>, today: Day)
    requires WithinQuota(entry)
    ensures Refresh(entry, today).date == today
    ensures Refresh(entry, today).count ==
            if entry.Some? && entry.value.date == today then entry.value.count else 0
    ensures Admits(Refresh(entry, today)) <==>
            entry.None? || entry.value.date != today || entry.value.count < MaxDaily
    ensures Admits(Refresh(entry, today)) ==>
            Charge(entry, today) == Entry(today, Refresh(entry, today).count + 1)
    ensures !Admits(Refresh(entry, today)) ==> entry == Some(Charge(entry, today))
    ensures WithinQuota(Some(Charge(entry, today)))
  {
  }

  /** The dates of the admitted attempts among attempts made on the given
      days, in order, starting from a stored entry. */
  function Admitted(entry: Option<Entry>, days: seq<Day>): (admitted: seq<Day>)
    decreases |days|
  {
    if |days| == 0 then []
    else
      (if Admits(Refresh(entry, days[0])) then [days[0]] else [])
      + Admitted(Some(Charge(entry, days[0])), days[1..])
  }

  predicate Nondecreasing(days: seq<Day>) {
    forall i, j :: 0 <= i < j < |days| ==> days[i] <= days[j]
  }

  /** Every admitted date is the date of some attempt. */
  lemma {:induction false} AdmittedFromDays(entry: Option<Entry>, days: seq<Day>, d: Day)
    requires d in Admitted(entry, days)
    ensures d in days
    decreases |days|
  {
    if |days| > 0 && d != days[0] {
      AdmittedFromDays(Some(Charge(entry, days[0])), days[1..], d);
    }
  }

  /** Over attempts on nondecreasing calendar dates, no date sees more than
      MaxDaily admitted posts, counting the posts the starting entry had
      already recorded for it. */
  lemma {:induction false} DailyCap(entry: Option<Entry>, days: seq<Day>, d: Day)
    requires WithinQuota(entry)
    requires Nondecreasing(days)
    requires entry.Some? && |days| > 0 ==> entry.value.date <= days[0]
    ensures multiset(Admitted(entry, days))[d] +
            (if entry.Some? && entry.value.date == d then entry.value.count else 0) <= MaxDaily
    decreases |days|
  {
    if |days| > 0 {
      var t := days[0];
      var next := Some(Charge(entry, t));
      ChargeSpec(entry, t);
      DailyCap(next, days[1..], d);
      var head := if Admits(Refresh(entry, t)) then [t] else [];
      assert Admitted(entry, days) == head + Admitted(next, days[1..]);
      if d != t && entry.Some? && entry.value.date == d {
        if d in Admitted(next, days[1..]) {
          AdmittedFromDays(next, days[1..], d);
          assert false;
        }
      }
    }
  }

  /** The cap follows calendar dates, not a rolling 24 hours: two posts late
      on one day and two early on the next are all admitted. */
  lemma CalendarDayNotRollingWindow(d: Day)
    ensures Admitted(None, [d, d, d + 1, d + 1]) == [d, d, d + 1, d + 1]
    ensures Admitted(None, [d, d, d]) == [d, d]
  {
    var two := Some(Entry(d, 2));
    assert Admitted(Some(Entry(d + 1, 2)), []) == [];
    assert Admitted(Some(Entry(d, 1)), [d, d + 1, d + 1]) == [d] + Admitted(two, [d + 1, d + 1]);
    assert Admitted(two, [d + 1, d + 1]) == [d + 1] + Admitted(Some(Entry(d + 1, 1)), [d + 1]);
    assert Admitted(two, [d]) == [] + Admitted(two, []);
    assert Admitted(Some(Entry(d, 1)), [d, d]) == [d] + Admitted(two, [d]);
  }
}
