/** The list logic of web/app/dashboard/page.tsx: the "updated … ago" text computed for
    each resume row, the title filter, and `formatUpdatedText`. */
module Dashboard {
  import opened Wrappers
  import opened Text

  const MinuteMs: nat := 60 * 1000
  const HourMs: nat := 3600 * 1000
  const DayMs: nat := 24 * 3600 * 1000

  /** A row of the `resumes` select. */
  datatype Item = Item(id: string, title: string, updatedAt: string, template: string, colorTheme: string)

  /** A row with the `updated_text` the mapping adds. */
  datatype Listed = Listed(item: Item, updatedText: string)

  /** The unit chosen for an elapsed time, with its count. */
  datatype Elapsed = Weeks(n: nat) | Days(n: nat) | Hours(n: nat) | Minutes(n: nat)

  /** The branches of the mapping on a non-negative elapsed time in milliseconds. */
  function Bucket(diff: nat): (e: Elapsed)
    ensures e.Weeks? <==> diff / DayMs >= 7
    ensures e.Days? <==> 1 <= diff / DayMs < 7
    ensures e.Hours? <==> diff / DayMs < 1 && diff / HourMs >= 1
    ensures e.Minutes? <==> diff / HourMs < 1
  {
    var days := diff / DayMs;
    if days >= 7 then Weeks(days / 7)
    else if days >= 1 then Days(days)
    else
      var hours := diff / HourMs;
      if hours >= 1 then Hours(hours) else Minutes(diff / MinuteMs)
  }

  function ElapsedText(e: Elapsed): string {
    match e
    case Weeks(n) => "更新于 " + NatToString(n) + " 周前"
    case Days(n) => "更新于 " + NatToString(n) + " 天前"
    case Hours(n) => "更新于 " + NatToString(n) + " 小时前"
    case Minutes(n) => "更新于 " + NatToString(n) + " 分钟前"
  }

  /** `Math.max(0, now - t)` when `updated_at` parses to the time `t`; an unparsable
      date gives `NaN`, every comparison with which is false, so the minutes branch
      renders `NaN`. */
  function RelativeText(now: int, t: Option<int>): (r: string)
    ensures t.None? ==> r == "更新于 NaN 分钟前"
  {
    match t
    case None => "更新于 NaN 分钟前"
    case Some(v) =>
      var diff: nat := if now - v < 0 then 0 else now - v;
      ElapsedText(Bucket(diff))
  }

  /** A time after `now` reads as zero minutes. */
  lemma FutureIsZeroMinutes(now: int, t: int)
    requires t >= now
    ensures RelativeText(now, Some(t)) == "更新于 0 分钟前"
  {
    assert Bucket(0) == Minutes(0);
    assert NatToString(0) == "0";
  }

  /** The counts each branch shows, as whole units of the elapsed time. */
  lemma BucketCounts(diff: nat)
    ensures Bucket(diff).Weeks? ==> Bucket(diff).n * 7 * DayMs <= diff < (Bucket(diff).n + 1) * 7 * DayMs
    ensures Bucket(diff).Days? ==> Bucket(diff).n * DayMs <= diff < (Bucket(diff).n + 1) * DayMs && 1 <= Bucket(diff).n < 7
    ensures Bucket(diff).Hours? ==> Bucket(diff).n * HourMs <= diff < (Bucket(diff).n + 1) * HourMs && 1 <= Bucket(diff).n < 24
    ensures Bucket(diff).Minutes? ==> Bucket(diff).n * MinuteMs <= diff < (Bucket(diff).n + 1) * MinuteMs && Bucket(diff).n < 60
  {
    var days := diff / DayMs;
    var hours := diff / HourMs;
    if days >= 7 {
      var w := days / 7;
      assert w * 7 <= days < (w + 1) * 7;
      assert days * DayMs <= diff < (days + 1) * DayMs;
      assert w * 7 * DayMs <= days * DayMs;
      assert (days + 1) * DayMs <= (w + 1) * 7 * DayMs;
    } else if days < 1 {
      assert diff < DayMs;
      assert hours < 24;
      if hours < 1 {
        assert diff < HourMs;
      }
    }
  }

  /** The mapping over the fetched rows (`data || []`): every row and its fields kept,
      in order, with its relative text added. */
  function MapRows(now: int, parse: string -> Option<int>, data: Option<seq<Item>>): (r: seq<Listed>)
    ensures data.None? ==> r == []
    ensures data.Some? ==>
              |r| == |data.value| &&
              forall i :: 0 <= i < |r| ==> r[i] == Listed(data.value[i], RelativeText(now, parse(data.value[i].updatedAt)))
  {
    var rows := data.GetOr([]);
    seq(|rows|, i requires 0 <= i < |rows| => Listed(rows[i], RelativeText(now, parse(rows[i].updatedAt))))
  }

  /** `it.title.toLowerCase().includes(q)`, with `toLowerCase` as the parameter `lower`. */
  predicate TitleMatches(lower: string -> string, q: string, it: Listed) {
    Contains(lower(it.item.title), q)
  }

  function FilterBy(lower: string -> string, q: string, items: seq<Listed>): seq<Listed>
    decreases |items|
  {
    if items == [] then []
    else FilterBy(lower, q, items[..|items| - 1]) + (if TitleMatches(lower, q, items[|items| - 1]) then [items[|items| - 1]] else [])
  }

  /** `filtered`: the trimmed, lower-cased query; an empty one keeps every item. */
  function Filtered(lower: string -> string, items: seq<Listed>, query: string): (r: seq<Listed>)
    ensures lower("") == "" && AllSpace(query) ==> r == items
  {
    var q := lower(Trim(query));
    TrimEmptyIffAllSpace(query);
    if q == [] then items else FilterBy(lower, q, items)
  }

  /** Filtering keeps exactly the matching items. */
  lemma {:induction false} FilterByMembers(lower: string -> string, q: string, items: seq<Listed>, x: Listed)
    ensures x in FilterBy(lower, q, items) <==> x in items && TitleMatches(lower, q, x)
    decreases |items|
  {
    if items != [] {
      FilterByMembers(lower, q, items[..|items| - 1], x);
      assert items == items[..|items| - 1] + [items[|items| - 1]];
    }
  }

  /** Filtering preserves order: it distributes over concatenation. */
  lemma {:induction false} FilterByAppend(lower: string -> string, q: string, a: seq<Listed>, b: seq<Listed>)
    ensures FilterBy(lower, q, a + b) == FilterBy(lower, q, a) + FilterBy(lower, q, b)
    decreases |b|
  {
    if b == [] {
      assert a + b == a;
    } else {
      var b' := b[..|b| - 1];
      assert (a + b)[..|a + b| - 1] == a + b';
      FilterByAppend(lower, q, a, b');
    }
  }

  /** A single item survives exactly when its title matches. */
  lemma FilterByOne(lower: string -> string, q: string, x: Listed)
    ensures FilterBy(lower, q, [x]) == if TitleMatches(lower, q, x) then [x] else []
  {
    assert [x][..0] == [];
  }

  /** With a non-blank query, the filtered list keeps exactly the matching items (in
      their order, by `FilterByAppend`); lower-casing keeps a string empty exactly when
      it was. */
  lemma FilteredMeaning(lower: string -> string, items: seq<Listed>, query: string, x: Listed)
    requires forall s :: lower(s) == [] <==> s == []
    ensures !AllSpace(query) ==>
              (x in Filtered(lower, items, query) <==> x in items && TitleMatches(lower, lower(Trim(query)), x))
    ensures AllSpace(query) ==> Filtered(lower, items, query) == items
  {
    TrimEmptyIffAllSpace(query);
    FilterByMembers(lower, lower(Trim(query)), items, x);
  }

  /** `txt || fallback || ''` */
  function FormatUpdatedText(txt: Option<string>, fallback: Option<string>): (r: string)
    ensures txt.Some? && txt.value != "" ==> r == txt.value
    ensures (txt.None? || txt.value == "") && fallback.Some? && fallback.value != "" ==> r == fallback.value
    ensures (txt.None? || txt.value == "") && (fallback.None? || fallback.value == "") ==> r == ""
  {
    if txt.Some? && txt.value != "" then txt.value
    else if fallback.Some? && fallback.value != "" then fallback.value
    else ""
  }
}
