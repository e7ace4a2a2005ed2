/**
 * Deadline tracking: the four deadline fields of the intake form become a
 * list of deadlines, each shown with a countdown, an urgency colour and a
 * calendar link, sorted by date; the earliest one heads the dashboard.
 * Today is a day number passed in by the caller; the display formatting of a
 * date and `encodeURIComponent` are parameters.
 */
module Deadlines {
  import opened Wrappers
  import opened Strings
  import opened Seqs
  import opened Dates
  import opened Records
  import Storage

  /** A submitted form: field name to field value. */
  type Form = map<string, string>

  /** The deadline fields of the intake form, in order, with the label each deadline gets. */
  const DeadlineFields: seq<(string, string)> := [
    ("deadline1", "Application Submission"),
    ("deadline2", "Biometrics Appointment"),
    ("deadline3", "Decision Expected"),
    ("deadline4", "Appeal Deadline")
  ]

  /** `formData[key]` is truthy: present and not the empty text. */
  predicate FieldSet(form: Form, key: string) {
    key in form && form[key] != ""
  }

  function IsSetField(form: Form): ((string, string)) -> bool {
    (f: (string, string)) => FieldSet(form, f.0)
  }

  /** The deadlines for the given fields, with ids `next`, `next + 1`, ... */
  function Entries(form: Form, fields: seq<(string, string)>, next: nat): seq<Deadline>
    requires forall i :: 0 <= i < |fields| ==> fields[i].0 in form
  {
    seq(|fields|, i requires 0 <= i < |fields| => Deadline(fields[i].1, form[fields[i].0], next + i))
  }

  /** The list `updateFromForm` builds from a field table: one deadline per set
      field, in field order, with ids `next`, `next + 1`, ... */
  function FieldDeadlines(form: Form, fields: seq<(string, string)>, next: nat): seq<Deadline> {
    var kept := Filter(fields, IsSetField(form));
    assert forall i :: 0 <= i < |kept| ==> IsSetField(form)(kept[i]);
    Entries(form, kept, next)
  }

  /** The number of set fields in front of field `f`: where field `f`'s deadline lands. */
  function SlotOf(form: Form, fields: seq<(string, string)>, f: nat): nat
    requires f <= |fields|
  {
    |Filter(fields[..f], IsSetField(form))|
  }

  /** Every deadline in the list comes from a set field, with that field's label
      and date; the ids are consecutive from `next`. */
  lemma FieldDeadlinesFromSetFields(form: Form, fields: seq<(string, string)>, next: nat)
    ensures var r := FieldDeadlines(form, fields, next);
      && |r| <= |fields|
      && forall i :: 0 <= i < |r| ==>
           exists f :: 0 <= f < |fields| && FieldSet(form, fields[f].0)
                    && r[i] == Deadline(fields[f].1, form[fields[f].0], next + i)
  {
    var p := IsSetField(form);
    var kept := Filter(fields, p);
    var r := FieldDeadlines(form, fields, next);
    assert |r| == |kept|;
    forall i | 0 <= i < |r|
      ensures exists f :: 0 <= f < |fields| && FieldSet(form, fields[f].0)
                       && r[i] == Deadline(fields[f].1, form[fields[f].0], next + i)
    {
      assert kept[i] in multiset(fields);
      var f :| 0 <= f < |fields| && fields[f] == kept[i];
      assert p(kept[i]);
      assert r[i] == Deadline(kept[i].1, form[kept[i].0], next + i);
    }
  }

  /** Every set field has its deadline in the list, at its slot. */
  lemma SetFieldsListed(form: Form, fields: seq<(string, string)>, next: nat, f: nat)
    requires f < |fields| && FieldSet(form, fields[f].0)
    ensures var r := FieldDeadlines(form, fields, next);
      && SlotOf(form, fields, f) < |r|
      && r[SlotOf(form, fields, f)] == Deadline(fields[f].1, form[fields[f].0], next + SlotOf(form, fields, f))
  {
    FilterPosition(fields, IsSetField(form), f);
  }

  /** The slots follow the field order: an earlier set field lands earlier. */
  lemma SlotsFollowFieldOrder(form: Form, fields: seq<(string, string)>, f: nat, g: nat)
    requires f < g <= |fields| && FieldSet(form, fields[f].0)
    ensures SlotOf(form, fields, f) < SlotOf(form, fields, g)
  {
    FilterPrefixGrows(fields, IsSetField(form), f, g);
  }

  lemma FieldDeadlinesIds(form: Form, fields: seq<(string, string)>, next: nat)
    ensures var r := FieldDeadlines(form, fields, next);
      forall i :: 0 <= i < |r| ==> r[i].id == next + i
  {
  }

  /** Adding one more field to the table appends at most that field's deadline. */
  lemma FieldDeadlinesSnoc(form: Form, fields: seq<(string, string)>, field: (string, string), next: nat)
    ensures FieldDeadlines(form, fields + [field], next)
         == FieldDeadlines(form, fields, next)
            + (if FieldSet(form, field.0)
               then [Deadline(field.1, form[field.0], next + |FieldDeadlines(form, fields, next)|)]
               else [])
  {
    var p := IsSetField(form);
    FilterConcat(fields, [field], p);
    assert [field][1..] == [];
    var a, b := Filter(fields, p), Filter([field], p);
    assert forall i :: 0 <= i < |a| ==> p(a[i]);
    assert forall i :: 0 <= i < |b| ==> p(b[i]);
    EntriesConcat(form, a, b, next);
  }

  lemma EntriesConcat(form: Form, a: seq<(string, string)>, b: seq<(string, string)>, next: nat)
    requires forall i :: 0 <= i < |a| ==> a[i].0 in form
    requires forall i :: 0 <= i < |b| ==> b[i].0 in form
    ensures Entries(form, a + b, next) == Entries(form, a, next) + Entries(form, b, next + |a|)
  {
    var ab := a + b;
    assert forall i :: |a| <= i < |ab| ==> ab[i] == b[i - |a|];
  }

  /** `getDaysRemaining(date)`: whole days from today to the deadline's calendar
      day; `None` when the date text is not a valid date (NaN). */
  function DaysRemaining(date: string, today: int): (r: Option<int>)
    ensures r.Some? <==> DayOf(date).Some?
    ensures r.Some? ==> today + r.value == DayOf(date).value
  {
    match DayOf(date)
    case None => None
    case Some(day) => Some(day - today)
  }

  /** A deadline on the next calendar day of a valid date is one day further away. */
  lemma DaysRemainingNextDay(y: int, m: int, d: int, today: int)
    requires ValidDate(y, m, d)
    ensures var (y', m', d') := NextDate(y, m, d);
      DayNumber(y', m', d') - today == DayNumber(y, m, d) - today + 1
  {
    NextDateIsNextDay(y, m, d);
  }

  datatype Urgency = Red | Amber | Green

  /** `getUrgencyClass(days)`; every comparison with NaN is false, so NaN is green. */
  function UrgencyClass(days: Option<int>): (u: Urgency)
    ensures u == Red <==> days.Some? && days.value <= 7
    ensures u == Amber <==> days.Some? && 8 <= days.value <= 30
    ensures u == Green <==> days.None? || days.value > 30
  {
    match days
    case None => Green
    case Some(d) =>
      if d < 0 then Red
      else if d <= 7 then Red
      else if d <= 30 then Amber
      else Green
  }

  /** `formatDaysRemaining(days)`. */
  function FormatDaysRemaining(days: Option<int>): string {
    match days
    case None => "NaN days remaining"
    case Some(d) =>
      if d < 0 then NatToString(-d) + " days overdue"
      else if d == 0 then "Today!"
      else if d == 1 then "1 day remaining"
      else NatToString(d) + " days remaining"
  }

  lemma SuffixCancel(a: string, b: string, t: string)
    requires a + t == b + t
    ensures a == b
  {
    assert |a| == |b|;
    assert a == (a + t)[..|a|];
    assert b == (b + t)[..|b|];
  }

  /** The countdown text tells overdue from remaining by its last word. */
  lemma CountdownShape(d: int)
    ensures var r := FormatDaysRemaining(Some(d));
      && (d < 0 <==> |r| > 0 && r[|r| - 1] == 'e')
      && (d == 0 <==> |r| > 0 && r[|r| - 1] == '!')
      && (d > 0 <==> |r| > 0 && r[|r| - 1] == 'g')
  {
  }

  /** Different day counts give different countdown texts. */
  lemma CountdownInjective(a: int, b: int)
    requires FormatDaysRemaining(Some(a)) == FormatDaysRemaining(Some(b))
    ensures a == b
  {
    CountdownShape(a);
    CountdownShape(b);
    if a < 0 {
      SuffixInjective(-a, -b, " days overdue");
    } else if a > 1 && b > 1 {
      SuffixInjective(a, b, " days remaining");
    }
  }

  lemma SuffixInjective(m: nat, n: nat, t: string)
    requires NatToString(m) + t == NatToString(n) + t
    ensures m == n
  {
    SuffixCancel(NatToString(m), NatToString(n), t);
    NatToStringInjective(m, n);
  }

  const CalendarBase := "https://calendar.google.com/calendar/render?action=TEMPLATE&text="

  /** `generateCalendarLink(deadline)`; `encode` is `encodeURIComponent`. */
  function CalendarLink(d: Deadline, encode: string -> string): string {
    var title := encode("UK Immigration: " + d.kind);
    var stamp := RemoveChar(d.date, '-');
    var details := encode("Immigration case deadline: " + d.kind);
    CalendarBase + title + "&dates=" + stamp + "/" + stamp + "&details=" + details
  }

  /** For a valid date the calendar event spans that one day, written `YYYYMMDD`. */
  lemma CalendarStamp(d: Deadline, encode: string -> string)
    requires DayOf(d.date).Some?
    ensures var stamp := d.date[0..4] + d.date[5..7] + d.date[8..10];
      && |stamp| == 8 && AllDigits(stamp)
      && CalendarLink(d, encode)
         == CalendarBase + encode("UK Immigration: " + d.kind) + "&dates=" + stamp + "/" + stamp
            + "&details=" + encode("Immigration case deadline: " + d.kind)
  {
    var t := d.date;
    var y, m, dd := t[0..4], t[5..7], t[8..10];
    assert t == y + "-" + m + "-" + dd;
    assert AllDigits(y) && AllDigits(m) && AllDigits(dd);
    RemoveCharConcat(y + "-" + m + "-", dd, '-');
    RemoveCharConcat(y + "-" + m, "-", '-');
    RemoveCharConcat(y + "-", m, '-');
    RemoveCharConcat(y, "-", '-');
    RemoveCharAbsent(y, '-');
    RemoveCharAbsent(m, '-');
    RemoveCharAbsent(dd, '-');
    assert RemoveChar("-", '-') == "";
    assert RemoveChar(t, '-') == y + m + dd;
    var stamp := y + m + dd;
    assert forall i :: 0 <= i < 8 ==> IsDigit(stamp[i]) by {
      forall i | 0 <= i < 8 ensures IsDigit(stamp[i]) {
        if i < 4 { assert stamp[i] == y[i]; }
        else if i < 6 { assert stamp[i] == m[i - 4]; }
        else { assert stamp[i] == dd[i - 6]; }
      }
    }
  }

  /** The sort comparator `new Date(a.date) - new Date(b.date)` as "a may stay in
      front of b"; a NaN difference counts as zero. */
  function DateLe(a: Deadline, b: Deadline): bool {
    match (DayOf(a.date), DayOf(b.date))
    case (Some(x), Some(y)) => x <= y
    case _ => true
  }

  predicate AllDatesValid(ds: seq<Deadline>) {
    forall i :: 0 <= i < |ds| ==> DayOf(ds[i].date).Some?
  }

  /** The sorted copy both `render` and `updateDashboard` make. */
  function SortByDate(ds: seq<Deadline>): (r: seq<Deadline>)
    ensures multiset(r) == multiset(ds)
  {
    StableSort(ds, DateLe)
  }

  lemma DateLePreorder(ds: seq<Deadline>)
    requires AllDatesValid(ds)
    ensures PreorderOn(DateLe, ds)
  {
    forall x | x in ds ensures DayOf(x.date).Some? {
      var i :| 0 <= i < |ds| && ds[i] == x;
    }
  }

  /** With valid dates the sorted copy is a permutation in chronological order. */
  lemma SortByDateOrdered(ds: seq<Deadline>)
    requires AllDatesValid(ds)
    ensures var r := SortByDate(ds);
      && multiset(r) == multiset(ds)
      && AllDatesValid(r)
      && forall i, j :: 0 <= i < j < |r| ==> DayOf(r[i].date).value <= DayOf(r[j].date).value
  {
    DateLePreorder(ds);
    StableSortSorted(ds, DateLe);
    var r := SortByDate(ds);
    forall i | 0 <= i < |r| ensures DayOf(r[i].date).Some? {
      assert r[i] in multiset(ds);
      var k :| 0 <= k < |ds| && ds[k] == r[i];
    }
  }

  /** One rendered deadline item: the deadline and its day count, from which the
      item's texts, colour class and link are drawn. */
  datatype DeadlineView = DeadlineView(deadline: Deadline, days: Option<int>) {
    function Countdown(): string { FormatDaysRemaining(days) }
    function Colour(): Urgency { UrgencyClass(days) }
    function ShownDate(formatDate: string -> string): string { formatDate(deadline.date) }
    function Link(encode: string -> string): string { CalendarLink(deadline, encode) }
  }

  function ViewOf(d: Deadline, today: int): DeadlineView {
    DeadlineView(d, DaysRemaining(d.date, today))
  }

  /** The items `render` appends, in order. */
  function Views(ds: seq<Deadline>, today: int): (r: seq<DeadlineView>)
    ensures |r| == |ds|
    ensures forall i :: 0 <= i < |ds| ==> r[i].deadline == ds[i]
  {
    seq(|ds|, i requires 0 <= i < |ds| => ViewOf(ds[i], today))
  }

  /** The condition under which `render` raises the urgent warning. */
  predicate IsUrgent(days: Option<int>) {
    days.Some? && 0 <= days.value <= 7
  }

  /** The ids of the deadlines due today or within the next seven days. */
  function UrgentIds(ds: seq<Deadline>, today: int): (r: set<nat>)
    ensures forall id :: id in r <==> exists d :: d in ds && d.id == id && IsUrgent(DaysRemaining(d.date, today))
  {
    set d | d in ds && IsUrgent(DaysRemaining(d.date, today)) :: d.id
  }

  /** Urgent deadlines are red; overdue deadlines are red but never urgent. */
  lemma UrgentIsRed(days: Option<int>)
    ensures IsUrgent(days) ==> UrgencyClass(days) == Red
    ensures days.Some? && days.value < 0 ==> UrgencyClass(days) == Red && !IsUrgent(days)
  {
  }

  datatype Colour = ErrorColour | WarningColour | SuccessColour

  function ColourOf(u: Urgency): Colour {
    match u
    case Red => ErrorColour
    case Amber => WarningColour
    case Green => SuccessColour
  }

  /** The "next deadline" card of the dashboard. */
  datatype Summary =
    | NoDeadlines
    | NextDeadline(shownDate: string, caption: string, colour: Colour)

  /** `updateDashboard()`: the head of the date-sorted list, or the empty card. */
  function DashboardSummary(ds: seq<Deadline>, today: int, formatDate: string -> string): (s: Summary)
    ensures s.NoDeadlines? <==> ds == []
  {
    if ds == [] then NoDeadlines
    else
      var next := SortByDate(ds)[0];
      var days := DaysRemaining(next.date, today);
      NextDeadline(formatDate(next.date), next.kind + " - " + FormatDaysRemaining(days),
                   ColourOf(UrgencyClass(days)))
  }

  /** With valid dates the card shows the earliest deadline, the first one listed
      among those sharing the earliest date. */
  lemma NextDeadlineIsEarliest(ds: seq<Deadline>, today: int, formatDate: string -> string) returns (k: nat)
    requires ds != [] && AllDatesValid(ds)
    ensures k < |ds|
    ensures forall j :: 0 <= j < |ds| ==> DayOf(ds[k].date).value <= DayOf(ds[j].date).value
    ensures forall j :: 0 <= j < k ==> DayOf(ds[j].date).value > DayOf(ds[k].date).value
    ensures var days := DaysRemaining(ds[k].date, today);
      DashboardSummary(ds, today, formatDate)
      == NextDeadline(formatDate(ds[k].date), ds[k].kind + " - " + FormatDaysRemaining(days),
                      ColourOf(UrgencyClass(days)))
  {
    DateLePreorder(ds);
    k := StableSortHead(ds, DateLe);
  }

  /** `loadDeadlines()` read through the record decoder: the stored list, or none
      when what is stored does not decode. */
  function StoredDeadlines(m: Storage.Memory): seq<Deadline> {
    match DecodeDeadlines(Storage.ListIn(m, Storage.DeadlinesKey))
    case Some(ds) => ds
    case None => []
  }

  /** What `saveDeadlines` stores, `loadDeadlines` reads back; an empty store reads as no deadlines. */
  lemma StoredDeadlinesRoundTrip(m: Storage.Memory, ds: seq<Deadline>)
    ensures StoredDeadlines(m[Storage.DeadlinesKey := EncodeDeadlines(ds)]) == ds
    ensures Storage.DeadlinesKey !in m ==> StoredDeadlines(m) == []
  {
    DeadlinesRoundTrip(ds);
    assert DecodeDeadlineItems([]) == Some([]);
  }

  class DeadlineManager {
    var deadlines: seq<Deadline>
    /** The ids whose urgent warning was shown this session (`warning_shown_<id>`). */
    var shownWarnings: set<nat>
    /** The next fresh id token (the source draws `Date.now() + Math.random()`). */
    var nextId: nat
    const store: Storage.StorageManager
    /** The deadline field table of the intake form. */
    const fields: seq<(string, string)>

    /** Every id in use, or marked as warned, was drawn before `nextId`. */
    ghost predicate Valid()
      reads this
    {
      && (forall i :: 0 <= i < |deadlines| ==> deadlines[i].id < nextId)
      && (forall id :: id in shownWarnings ==> id < nextId)
    }

    constructor (store: Storage.StorageManager)
      ensures this.store == store && fields == DeadlineFields
      ensures deadlines == [] && shownWarnings == {} && nextId == 0
      ensures Valid()
    {
      this.store := store;
      fields := DeadlineFields;
      deadlines := [];
      shownWarnings := {};
      nextId := 0;
    }

    /** `loadDeadlines()`: the stored list, or none when nothing readable is stored. */
    method LoadDeadlines()
      modifies this
      ensures deadlines == StoredDeadlines(store.memory)
      ensures shownWarnings == old(shownWarnings) && nextId >= old(nextId)
      ensures old(Valid()) ==> Valid()
    {
      deadlines := StoredDeadlines(store.memory);
      var bound := KeyBound(deadlines, (d: Deadline) => d.id);
      if bound > nextId {
        nextId := bound;
      }
    }

    /** `showUrgentWarning(deadline)`: marks the deadline as warned; what follows the
        mark is only the quiet-minute return, so the mark is the whole effect. */
    method ShowUrgentWarning(d: Deadline)
      modifies this`shownWarnings
      ensures shownWarnings == old(shownWarnings) + {d.id}
    {
      if d.id in shownWarnings {
        return;
      }
      shownWarnings := shownWarnings + {d.id};
    }

    /** `render()`: the date-sorted views, raising the warning for every deadline due
        within seven days. */
    method Render(today: int)
      returns (views: seq<DeadlineView>)
      requires Valid()
      modifies this`shownWarnings
      ensures views == Views(SortByDate(deadlines), today)
      ensures shownWarnings == old(shownWarnings) + UrgentIds(deadlines, today)
      ensures Valid()
    {
      if |deadlines| == 0 {
        return [];
      }
      var sorted := SortByDate(deadlines);
      views := RenderEach(sorted, today);
      SameUrgentIds(sorted, deadlines, today);
      UrgentIdsBelow(deadlines, today, nextId);
    }

    /** The `forEach` of `render` over the sorted copy. */
    method RenderEach(sorted: seq<Deadline>, today: int)
      returns (views: seq<DeadlineView>)
      modifies this`shownWarnings
      ensures views == Views(sorted, today)
      ensures shownWarnings == old(shownWarnings) + UrgentIds(sorted, today)
    {
      views := [];
      var i := 0;
      while i < |sorted|
        invariant 0 <= i <= |sorted|
        invariant views == Views(sorted[..i], today)
        invariant shownWarnings == old(shownWarnings) + UrgentIds(sorted[..i], today)
      {
        var view := RenderOne(sorted[i], today);
        RenderStep(sorted, i, today);
        views := views + [view];
        i := i + 1;
      }
      assert sorted[..i] == sorted;
    }

    /** One pass of the `forEach`: the item for `d`, and its warning when it is due
        within seven days. */
    method RenderOne(d: Deadline, today: int) returns (view: DeadlineView)
      modifies this`shownWarnings
      ensures view == ViewOf(d, today)
      ensures shownWarnings
              == old(shownWarnings) + (if IsUrgent(DaysRemaining(d.date, today)) then {d.id} else {})
    {
      view := ViewOf(d, today);
      if IsUrgent(DaysRemaining(d.date, today)) {
        ShowUrgentWarning(d);
      }
    }

    /** The first half of `updateFromForm`: the list is replaced by one fresh
        deadline per set field, and the ids used are drawn. */
    method CollectDeadlines(form: Form)
      requires Valid()
      modifies this`deadlines, this`nextId
      ensures deadlines == FieldDeadlines(form, fields, old(nextId))
      ensures nextId == old(nextId) + |deadlines|
      ensures Valid()
    {
      deadlines := CollectFields(form, fields, nextId);
      FieldDeadlinesIds(form, fields, nextId);
      nextId := nextId + |deadlines|;
    }

    /** `updateFromForm(formData)`: replaces the list by one fresh deadline per set
        field, stores it, renders it and refreshes the dashboard card. */
    method UpdateFromForm(form: Form, today: int, formatDate: string -> string)
      returns (views: seq<DeadlineView>, summary: Summary)
      requires Valid()
      modifies this, store
      ensures deadlines == FieldDeadlines(form, fields, old(nextId))
      ensures nextId == old(nextId) + |deadlines|
      ensures store.memory == old(store.memory)[Storage.DeadlinesKey := EncodeDeadlines(deadlines)]
      ensures shownWarnings == old(shownWarnings) + UrgentIds(deadlines, today)
      ensures views == Views(SortByDate(deadlines), today)
      ensures summary == DashboardSummary(deadlines, today, formatDate)
      ensures Valid()
    {
      CollectDeadlines(form);
      var _ := store.SaveDeadlines(EncodeDeadlines(deadlines));
      views := Render(today);
      summary := DashboardSummary(deadlines, today, formatDate);
    }
  }

  /** The `forEach` of `updateFromForm` over a field table: pushes one deadline
      per set field, drawing ids from `first` on. */
  method CollectFields(form: Form, fields: seq<(string, string)>, first: nat) returns (ds: seq<Deadline>)
    ensures ds == FieldDeadlines(form, fields, first)
  {
    ds := [];
    var i := 0;
    while i < |fields|
      invariant 0 <= i <= |fields|
      invariant ds == FieldDeadlines(form, fields[..i], first)
    {
      CollectStep(form, fields, i, first);
      if FieldSet(form, fields[i].0) {
        ds := ds + [Deadline(fields[i].1, form[fields[i].0], first + |ds|)];
      }
      i := i + 1;
    }
    assert fields[..i] == fields;
  }

  /** One more field visited by the `forEach`. */
  lemma CollectStep(form: Form, fields: seq<(string, string)>, i: nat, first: nat)
    requires i < |fields|
    ensures var before := FieldDeadlines(form, fields[..i], first);
      FieldDeadlines(form, fields[..i + 1], first)
      == before + (if FieldSet(form, fields[i].0)
                   then [Deadline(fields[i].1, form[fields[i].0], first + |before|)]
                   else [])
  {
    assert fields[..i + 1] == fields[..i] + [fields[i]];
    FieldDeadlinesSnoc(form, fields[..i], fields[i], first);
  }

  /** One more deadline rendered: one more view, and its id if it is urgent. */
  lemma RenderStep(s: seq<Deadline>, i: nat, today: int)
    requires i < |s|
    ensures Views(s[..i + 1], today) == Views(s[..i], today) + [ViewOf(s[i], today)]
    ensures UrgentIds(s[..i + 1], today)
         == UrgentIds(s[..i], today) + (if IsUrgent(DaysRemaining(s[i].date, today)) then {s[i].id} else {})
  {
    assert s[..i + 1] == s[..i] + [s[i]];
    ViewsSnoc(s[..i], s[i], today);
    UrgentIdsSnoc(s[..i], s[i], today);
  }

  lemma ViewsSnoc(s: seq<Deadline>, d: Deadline, today: int)
    ensures Views(s + [d], today) == Views(s, today) + [ViewOf(d, today)]
  {
  }

  lemma UrgentIdsSnoc(s: seq<Deadline>, d: Deadline, today: int)
    ensures UrgentIds(s + [d], today)
         == UrgentIds(s, today) + (if IsUrgent(DaysRemaining(d.date, today)) then {d.id} else {})
  {
    forall x ensures x in s + [d] <==> x in s || x == d {
    }
  }

  /** Urgent ids are ids of listed deadlines, hence below any bound on those. */
  lemma UrgentIdsBelow(ds: seq<Deadline>, today: int, bound: nat)
    requires forall i :: 0 <= i < |ds| ==> ds[i].id < bound
    ensures forall id :: id in UrgentIds(ds, today) ==> id < bound
  {
    forall id | id in UrgentIds(ds, today) ensures id < bound {
      var d :| d in ds && d.id == id && IsUrgent(DaysRemaining(d.date, today));
      var k :| 0 <= k < |ds| && ds[k] == d;
    }
  }

  /** Two lists holding the same deadlines have the same urgent ids. */
  lemma SameUrgentIds(a: seq<Deadline>, b: seq<Deadline>, today: int)
    requires multiset(a) == multiset(b)
    ensures UrgentIds(a, today) == UrgentIds(b, today)
  {
    forall d ensures d in a <==> d in b {
      assert d in a <==> d in multiset(a);
      assert d in b <==> d in multiset(b);
    }
  }
}
